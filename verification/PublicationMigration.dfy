/** The move of a publication from hash-named to period-named objects, and its rollback:
    copy, then switch the committed pointers in one step. The process may die between any two
    effects; the publication lease keeps other writers out. */
module PublicationMigration {
  import opened Options
  import opened PublicationKeys

  datatype Entry = Entry(href: string, kind: string, start: string, htmlKey: string, jsonKey: string, rest: string)
  datatype Manifest = Manifest(updatedAt: string, generation: Option<string>, reports: seq<Entry>)
  datatype Index = Index(updatedAt: string, manifestKey: string, latestKey: string, generation: Option<string>,
                         reports: seq<Entry>)

  /** Stored bytes, named by what they spell. */
  datatype Body = Page(text: string) | ManifestText(manifest: Manifest) | IndexText(index: Index)

  datatype Stored = Stored(body: Body, etag: string)
  type Storage = map<string, Stored>

  /** The committed record of one report; a report without an entry is not published. */
  datatype Item = Item(entry: Option<Entry>, htmlStamp: string, jsonStamp: string, rest: string)
  type Items = map<string, Item>

  datatype Meta = Meta(target: string, layout: string, manifestKey: string, manifestEtag: string,
                       latestKey: string, latestEtag: string, rest: string)
  datatype Publication = Publication(items: Items, meta: Meta)

  /** The storage the tool was started for, and its content digest. */
  datatype Env = Env(target: string, digest: Body -> string)

  const PERIOD_LAYOUT := "period-v1"

  // ---- Validation -----------------------------------------------------------------------------

  function HashPart(key: string): string
    requires LegacyKey(key)
  {
    if "publication/reports/" <= key then key[20..84]
    else if "publication/manifests/" <= key then key[22..86]
    else key[19..83]
  }

  /** publication_storage_admin.required_object. */
  predicate Required(env: Env, storage: Storage, key: string, etag: string) {
    AllowedKey(key) && key in storage && storage[key].etag != "" && (etag != "" ==> storage[key].etag == etag)
    && (LegacyKey(key) ==> HashPart(key) == env.digest(storage[key].body))
  }

  predicate ReportPath(href: string) {
    StableReport(href, ".html")
  }

  function JsonPath(href: string): string
    requires |href| >= 5
  {
    href[..|href| - 5] + ".json"
  }

  predicate EntryOk(e: Entry, stable: bool) {
    ReportPath(e.href) && |e.href| >= 5
    && e.kind in {"daily", "weekly", "monthly", "seasonal"} && PeriodKey(e.href, e.kind, ".html")
    && e.start == e.href[|e.kind| + 1..|e.kind| + 11]
    && if stable then e.htmlKey == e.href && e.jsonKey == JsonPath(e.href)
       else
         HashNamed(e.htmlKey, "publication/reports/", ".html") && HashNamed(e.jsonKey, "publication/reports/", ".json")
  }

  /** publication_storage_admin.validate_manifest. */
  predicate ManifestOk(m: Manifest, stable: bool) {
    (forall i :: 0 <= i < |m.reports| ==> EntryOk(m.reports[i], stable))
    && forall i, j :: 0 <= i < j < |m.reports| ==> m.reports[i].href != m.reports[j].href
  }

  predicate EntryCommitted(env: Env, storage: Storage, items: Items, e: Entry) {
    e.href in items && items[e.href].entry == Some(e)
    && items[e.href].htmlStamp != "" && items[e.href].jsonStamp != ""
    && Required(env, storage, e.htmlKey, items[e.href].htmlStamp)
    && Required(env, storage, e.jsonKey, items[e.href].jsonStamp)
  }

  /** publication_storage_admin.committed_objects. */
  predicate CommittedOk(env: Env, storage: Storage, items: Items, m: Manifest) {
    (forall i :: 0 <= i < |m.reports| ==> EntryCommitted(env, storage, items, m.reports[i]))
    && forall href :: href in items && items[href].entry.Some? ==>
         exists i :: 0 <= i < |m.reports| && m.reports[i].href == href
  }

  predicate HasManifest(storage: Storage, key: string) {
    key in storage && storage[key].body.ManifestText?
  }

  function IndexOf(meta: Meta, m: Manifest): Index {
    Index(m.updatedAt, meta.manifestKey, meta.latestKey, m.generation, m.reports)
  }

  /** What migrate demands of a publication in the old layout before it looks at its journal. */
  predicate SourceOk(env: Env, storage: Storage, pub: Publication) {
    var meta := pub.meta;
    meta.target == env.target && Required(env, storage, meta.manifestKey, meta.manifestEtag)
    && HasManifest(storage, meta.manifestKey) && ManifestOk(storage[meta.manifestKey].body.manifest, false)
    && Required(env, storage, SITE_INDEX, "")
    && storage[SITE_INDEX].body == IndexText(IndexOf(meta, storage[meta.manifestKey].body.manifest))
    && CommittedOk(env, storage, pub.items, storage[meta.manifestKey].body.manifest)
    && (meta.latestKey != "" ==>
          "publication/latest/" <= meta.latestKey && Required(env, storage, meta.latestKey, meta.latestEtag))
    && "publication/manifests/" <= meta.manifestKey
  }

  /** What migrate demands of a publication in the new layout. */
  predicate AlreadyOk(env: Env, storage: Storage, pub: Publication) {
    var meta := pub.meta;
    meta.target == env.target && meta.manifestEtag != "" && (meta.latestKey != "" ==> meta.latestEtag != "")
    && Required(env, storage, REPORTS, meta.manifestEtag) && HasManifest(storage, REPORTS)
    && ManifestOk(storage[REPORTS].body.manifest, true)
    && meta.manifestKey == REPORTS && (meta.latestKey == "" || meta.latestKey == LATEST)
    && CommittedOk(env, storage, pub.items, storage[REPORTS].body.manifest)
    && (meta.latestKey != "" ==> Required(env, storage, LATEST, meta.latestEtag))
  }

  // ---- The copies -----------------------------------------------------------------------------

  function Stabilised(e: Entry): Entry
    requires |e.href| >= 5
  {
    e.(htmlKey := e.href, jsonKey := JsonPath(e.href))
  }

  function StabilisedAll(reports: seq<Entry>): (r: seq<Entry>)
    requires forall i :: 0 <= i < |reports| ==> |reports[i].href| >= 5
    ensures |r| == |reports| && forall i :: 0 <= i < |r| ==> r[i] == Stabilised(reports[i])
  {
    if reports == [] then []
    else StabilisedAll(reports[..|reports| - 1]) + [Stabilised(reports[|reports| - 1])]
  }

  /** The manifest of the new layout; only the links and the generation change. */
  function Prepared(m: Manifest, generation: string): Manifest
    requires ManifestOk(m, false)
  {
    Manifest(m.updatedAt, Some(generation), StabilisedAll(m.reports))
  }

  /** One object to create: its key and its bytes. */
  datatype Copy = Copy(key: string, body: Body)

  function EntryCopies(reports: seq<Entry>, storage: Storage): (copies: seq<Copy>)
    requires forall i :: 0 <= i < |reports| ==>
      |reports[i].href| >= 5 && reports[i].htmlKey in storage && reports[i].jsonKey in storage
    ensures |copies| == 2 * |reports|
    ensures forall i :: 0 <= i < |reports| ==>
      copies[2 * i] == Copy(reports[i].href, storage[reports[i].htmlKey].body)
      && copies[2 * i + 1] == Copy(JsonPath(reports[i].href), storage[reports[i].jsonKey].body)
  {
    if reports == [] then []
    else
      var last := reports[|reports| - 1];
      EntryCopies(reports[..|reports| - 1], storage)
      + [Copy(last.href, storage[last.htmlKey].body), Copy(JsonPath(last.href), storage[last.jsonKey].body)]
  }

  function SourceManifest(storage: Storage, pub: Publication): Manifest
    requires HasManifest(storage, pub.meta.manifestKey)
  {
    storage[pub.meta.manifestKey].body.manifest
  }

  /** Everything the migration creates, in its order. */
  function Desired(env: Env, storage: Storage, pub: Publication, generation: string): seq<Copy>
    requires SourceOk(env, storage, pub)
  {
    EntryCopies(SourceManifest(storage, pub).reports, storage)
    + (if pub.meta.latestKey != "" then [Copy(LATEST, storage[pub.meta.latestKey].body)] else [])
    + [Copy(REPORTS, ManifestText(Prepared(SourceManifest(storage, pub), generation)))]
  }

  predicate Compatible(storage: Storage, copies: seq<Copy>) {
    forall i :: 0 <= i < |copies| ==>
      copies[i].key in storage ==> storage[copies[i].key].body == copies[i].body && storage[copies[i].key].etag != ""
  }

  predicate Copied(storage: Storage, copies: seq<Copy>, n: nat)
    requires n <= |copies|
  {
    forall i :: 0 <= i < n ==>
      copies[i].key in storage && storage[copies[i].key].body == copies[i].body && storage[copies[i].key].etag != ""
  }

  // ---- Resolving -------------------------------------------------------------------------------

  /** The bytes a reader gets for a report: through the committed entry, at the committed ETags. */
  function Resolve(storage: Storage, pub: Publication, href: string): Option<(Body, Body)> {
    if href in pub.items && pub.items[href].entry.Some? then
      var item := pub.items[href];
      var e := item.entry.value;
      if e.htmlKey in storage && e.jsonKey in storage
         && storage[e.htmlKey].etag == item.htmlStamp && storage[e.jsonKey].etag == item.jsonStamp
      then Some((storage[e.htmlKey].body, storage[e.jsonKey].body)) else None
    else None
  }

  function ResolveLatest(storage: Storage, pub: Publication): Option<Body> {
    if pub.meta.latestKey != "" && pub.meta.latestKey in storage then Some(storage[pub.meta.latestKey].body) else None
  }

  /** Every report and the latest page that could be read can still be read, with the same bytes. */
  ghost predicate SameView(s: Storage, pub: Publication, s': Storage, pub': Publication) {
    (forall href :: Resolve(s, pub, href).Some? ==> Resolve(s', pub', href) == Resolve(s, pub, href))
    && (ResolveLatest(s, pub).Some? ==> ResolveLatest(s', pub') == ResolveLatest(s, pub))
  }

  /** No object but the browser index is overwritten or removed. */
  ghost predicate Kept(s: Storage, s': Storage) {
    forall k :: k in s && k != SITE_INDEX ==> k in s' && s'[k] == s[k]
  }

  /** The publication after the pointers have moved. */
  function Moved(pub: Publication, storage: Storage): Publication {
    Publication(
      map href | href in pub.items :: MovedItem(pub.items[href], storage), MovedMeta(pub.meta, storage))
  }

  function MovedMeta(meta: Meta, storage: Storage): Meta {
    meta.(manifestKey := REPORTS, manifestEtag := EtagOf(storage, REPORTS),
    latestKey := if meta.latestKey != "" then LATEST else "",
    latestEtag := if meta.latestKey != "" then EtagOf(storage, LATEST) else "",
    layout := PERIOD_LAYOUT)
  }

  function MovedItem(item: Item, storage: Storage): Item {
    match item.entry
    case None => item
    case Some(e) =>
      if |e.href| < 5 then item
      else Item(Some(Stabilised(e)), EtagOf(storage, e.href), EtagOf(storage, JsonPath(e.href)), item.rest)
  }

  function EtagOf(storage: Storage, key: string): string {
    if key in storage then storage[key].etag else ""
  }

  /** The two records of a report differ at most in where its pages are. */
  ghost predicate SameReport(a: Entry, b: Entry) {
    a.href == b.href && a.kind == b.kind && a.start == b.start && a.rest == b.rest
  }

  /** The switch changes where things are and nothing else that is recorded about them. */
  lemma SwitchKeepsRecords(env: Env, s: Storage, s': Storage, pub: Publication, generation: string)
    requires SourceOk(env, s, pub)
    ensures var m := SourceManifest(s, pub);
      var p := Prepared(m, generation);
      p.updatedAt == m.updatedAt && p.generation == Some(generation) && |p.reports| == |m.reports|
      && forall i :: 0 <= i < |m.reports| ==>
           SameReport(p.reports[i], m.reports[i])
           && p.reports[i].htmlKey == m.reports[i].href && p.reports[i].jsonKey == JsonPath(m.reports[i].href)
    ensures var moved := Moved(pub, s');
      moved.items.Keys == pub.items.Keys
      && moved.meta.target == pub.meta.target && moved.meta.rest == pub.meta.rest
      && (moved.meta.latestKey == "" <==> pub.meta.latestKey == "")
      && forall href :: href in pub.items ==>
           moved.items[href].rest == pub.items[href].rest
           && (moved.items[href].entry.Some? <==> pub.items[href].entry.Some?)
           && (pub.items[href].entry.Some? ==>
                 SameReport(moved.items[href].entry.value, pub.items[href].entry.value))
           && (pub.items[href].entry.None? ==> moved.items[href] == pub.items[href])
  {
    hide SourceOk, LegacyKey, AllowedKey, ReportPath, PeriodKey, HashNamed, JsonPath, CommittedOk, EtagOf;
    SourceIsOk(env, s, pub);
  }

  lemma SourceIsOk(env: Env, s: Storage, pub: Publication)
    requires SourceOk(env, s, pub)
    ensures HasManifest(s, pub.meta.manifestKey) && ManifestOk(SourceManifest(s, pub), false)
  {
    hide ManifestOk;
  }

  // ---- Facts about the copies -------------------------------------------------------------------

  lemma ReportPathFacts(a: string, b: string)
    requires ReportPath(a) && ReportPath(b)
    ensures 21 <= |a| <= 26 && a[|a| - 1] == 'l'
    ensures JsonPath(a) != b && (JsonPath(a) == JsonPath(b) ==> a == b)
    ensures a != LATEST && a != REPORTS && a != SITE_INDEX
    ensures JsonPath(a) != LATEST && JsonPath(a) != REPORTS && JsonPath(a) != SITE_INDEX
  {
    SuffixOf(a);
    SuffixOf(b);
    hide ReportPath;
    JsonEnds(a);
    if JsonPath(a) == JsonPath(b) {
      SameJson(a, b);
    }
  }

  lemma JsonEnds(a: string)
    requires |a| >= 21
    ensures |JsonPath(a)| == |a| && JsonPath(a)[|a| - 1] == 'n'
  {
  }

  lemma SameJson(a: string, b: string)
    requires |a| >= 21 && |b| >= 21 && a[|a| - 5..] == ".html" && b[|b| - 5..] == ".html" && JsonPath(a) == JsonPath(b)
    ensures a == b
  {
    assert |JsonPath(a)| == |a| && |JsonPath(b)| == |b|;
    assert a[..|a| - 5] == JsonPath(a)[..|a| - 5] && b[..|b| - 5] == JsonPath(b)[..|b| - 5];
    assert a == a[..|a| - 5] + a[|a| - 5..] && b == b[..|b| - 5] + b[|b| - 5..];
  }

  lemma SuffixOf(a: string)
    requires ReportPath(a)
    ensures 21 <= |a| <= 25 && a[|a| - 5..] == ".html"
    ensures a[|a| - 1] == 'l'
  {
    hide IsoDate;
    assert a[|a| - 1] == a[|a| - 5..][4];
  }

  lemma JsonIsReport(a: string)
    requires ReportPath(a)
    ensures StableReport(JsonPath(a), ".json")
  {
    hide IsoDate;
    var j := JsonPath(a);
    SuffixOf(a);
    assert forall i :: 0 <= i < |a| - 5 ==> j[i] == a[i];
    var kind := if PeriodKey(a, "daily", ".html") then "daily" else if PeriodKey(a, "weekly", ".html") then "weekly"
                else if PeriodKey(a, "monthly", ".html") then "monthly" else "seasonal";
    assert PeriodKey(a, kind, ".html") && |a| - 5 == |kind| + 11;
    assert kind == a[..|kind|] == j[..|kind|];
    assert j[|kind| + 1..|kind| + 11] == a[|kind| + 1..|kind| + 11];
    assert j[|kind| + 11..] == ".json";
  }

  /** Keys of the new layout are allowed, are no legacy keys and are not the browser index. */
  predicate Fresh(key: string) {
    AllowedKey(key) && !LegacyKey(key) && key != SITE_INDEX
  }

  lemma ReportIsFresh(href: string)
    requires ReportPath(href)
    ensures Fresh(href) && Fresh(JsonPath(href)) && Fresh(LATEST) && Fresh(REPORTS)
  {
    JsonIsReport(href);
    LayoutIsFresh();
    ReportPathFacts(href, href);
    StableIsNotLegacy(href);
    StableIsNotLegacy(JsonPath(href));
    hide StableReport, LegacyKey, JsonPath;
  }

  lemma LayoutIsFresh()
    ensures Fresh(LATEST) && Fresh(REPORTS)
  {
    StableIsNotLegacy(LATEST);
    StableIsNotLegacy(REPORTS);
  }

  ghost predicate DistinctKeys(copies: seq<Copy>) {
    forall i, j :: 0 <= i < j < |copies| ==> copies[i].key != copies[j].key
  }

  lemma EntryCopyKeys(reports: seq<Entry>, storage: Storage, k: nat)
    requires forall i :: 0 <= i < |reports| ==>
      |reports[i].href| >= 5 && reports[i].htmlKey in storage && reports[i].jsonKey in storage
    requires k < 2 * |reports|
    ensures var e := reports[k / 2];
      EntryCopies(reports, storage)[k]
      == if k % 2 == 0 then Copy(e.href, storage[e.htmlKey].body) else Copy(JsonPath(e.href), storage[e.jsonKey].body)
  {
    hide JsonPath;
    if k % 2 == 0 {
      assert k == 2 * (k / 2);
    } else {
      assert k == 2 * (k / 2) + 1;
    }
  }

  lemma EntriesReadable(env: Env, storage: Storage, pub: Publication)
    requires SourceOk(env, storage, pub)
    ensures var reports := SourceManifest(storage, pub).reports;
      forall i :: 0 <= i < |reports| ==>
        |reports[i].href| >= 5 && ReportPath(reports[i].href)
        && reports[i].htmlKey in storage && reports[i].jsonKey in storage
  {
    hide ReportPath, AllowedKey, LegacyKey, PeriodKey, HashPart;
    var reports := SourceManifest(storage, pub).reports;
    forall i | 0 <= i < |reports|
      ensures |reports[i].href| >= 5 && ReportPath(reports[i].href) && reports[i].htmlKey in storage
        && reports[i].jsonKey in storage
    {
      assert EntryOk(reports[i], false) && EntryCommitted(env, storage, pub.items, reports[i]);
    }
  }

  /** The i-th copy: which object it is. */
  lemma DesiredAt(env: Env, storage: Storage, pub: Publication, generation: string, k: nat)
    requires SourceOk(env, storage, pub) && k < |Desired(env, storage, pub, generation)|
    ensures var reports := SourceManifest(storage, pub).reports;
      var copy := Desired(env, storage, pub, generation)[k];
      if k < 2 * |reports| then
        ReportPath(reports[k / 2].href) && |reports[k / 2].href| >= 5
        && reports[k / 2].htmlKey in storage && reports[k / 2].jsonKey in storage
        && copy == if k % 2 == 0 then Copy(reports[k / 2].href, storage[reports[k / 2].htmlKey].body)
                   else Copy(JsonPath(reports[k / 2].href), storage[reports[k / 2].jsonKey].body)
      else if k == |Desired(env, storage, pub, generation)| - 1 then
        copy == Copy(REPORTS, ManifestText(Prepared(SourceManifest(storage, pub), generation)))
      else
        pub.meta.latestKey != "" && pub.meta.latestKey in storage
        && copy == Copy(LATEST, storage[pub.meta.latestKey].body)
  {
    hide ReportPath, LegacyKey, PeriodKey, HashPart, AllowedKey, JsonPath, Prepared, EntryCopies, ManifestOk;
    hide CommittedOk;
    EntriesReadable(env, storage, pub);
    var reports := SourceManifest(storage, pub).reports;
    if k < 2 * |reports| {
      EntryCopyKeys(reports, storage, k);
    }
  }

  lemma DesiredSize(env: Env, storage: Storage, pub: Publication, generation: string)
    requires SourceOk(env, storage, pub)
    ensures |Desired(env, storage, pub, generation)|
      == 2 * |SourceManifest(storage, pub).reports| + (if pub.meta.latestKey != "" then 2 else 1)
  {
    hide ReportPath, LegacyKey, PeriodKey, HashPart, AllowedKey, JsonPath, Prepared;
    EntriesReadable(env, storage, pub);
  }

  /** How the keys of the copies follow from the entries. */
  ghost predicate CopiesShape(copies: seq<Copy>, reports: seq<Entry>, latest: bool) {
    |copies| == 2 * |reports| + (if latest then 2 else 1)
    && (forall i :: 0 <= i < |reports| ==> |reports[i].href| >= 5 && ReportPath(reports[i].href))
    && (forall k :: 0 <= k < 2 * |reports| ==>
          copies[k].key == if k % 2 == 0 then reports[k / 2].href else JsonPath(reports[k / 2].href))
    && copies[|copies| - 1].key == REPORTS && (latest ==> copies[2 * |reports|].key == LATEST)
  }

  lemma DesiredShape(env: Env, storage: Storage, pub: Publication, generation: string)
    requires SourceOk(env, storage, pub)
    ensures CopiesShape(Desired(env, storage, pub, generation), SourceManifest(storage, pub).reports,
                        pub.meta.latestKey != "")
  {
    hide ReportPath, LegacyKey, PeriodKey, HashPart, AllowedKey, JsonPath, Prepared, EntryCopies, ManifestOk;
    hide CommittedOk;
    EntriesReadable(env, storage, pub);
    DesiredSize(env, storage, pub, generation);
    var reports := SourceManifest(storage, pub).reports;
    var copies := Desired(env, storage, pub, generation);
    forall k | 0 <= k < 2 * |reports|
      ensures copies[k].key == if k % 2 == 0 then reports[k / 2].href else JsonPath(reports[k / 2].href)
    {
      EntryCopyKeys(reports, storage, k);
    }
  }

  lemma ShapeDistinct(copies: seq<Copy>, reports: seq<Entry>, latest: bool, i: nat, j: nat)
    requires CopiesShape(copies, reports, latest) && i < j < |copies|
    requires forall p, q :: 0 <= p < q < |reports| ==> reports[p].href != reports[q].href
    ensures copies[i].key != copies[j].key
  {
    hide ReportPath, JsonPath;
    if j < 2 * |reports| {
      ReportPathFacts(reports[i / 2].href, reports[j / 2].href);
      ReportPathFacts(reports[j / 2].href, reports[i / 2].href);
    } else if i < 2 * |reports| {
      ReportPathFacts(reports[i / 2].href, reports[i / 2].href);
    }
  }

  lemma DesiredKeys(env: Env, storage: Storage, pub: Publication, generation: string)
    requires SourceOk(env, storage, pub)
    ensures DistinctKeys(Desired(env, storage, pub, generation))
    ensures forall i :: 0 <= i < |Desired(env, storage, pub, generation)| ==>
      Fresh(Desired(env, storage, pub, generation)[i].key)
  {
    var copies := Desired(env, storage, pub, generation);
    var reports := SourceManifest(storage, pub).reports;
    DesiredShape(env, storage, pub, generation);
    ReportsDistinct(env, storage, pub);
    ShapeFresh(copies, reports, pub.meta.latestKey != "");
    hide *;
    forall i, j | 0 <= i < j < |copies| ensures copies[i].key != copies[j].key {
      ShapeDistinct(copies, reports, pub.meta.latestKey != "", i, j);
    }
    CopiesDistinct(copies);
  }

  lemma CopiesDistinct(copies: seq<Copy>)
    requires forall i, j :: 0 <= i < j < |copies| ==> copies[i].key != copies[j].key
    ensures DistinctKeys(copies)
  {
  }

  lemma ShapeFresh(copies: seq<Copy>, reports: seq<Entry>, latest: bool)
    requires CopiesShape(copies, reports, latest)
    ensures forall i :: 0 <= i < |copies| ==> Fresh(copies[i].key)
  {
    hide ReportPath, JsonPath, Fresh;
    LayoutIsFresh();
    forall i | 0 <= i < |copies| ensures Fresh(copies[i].key) {
      if i < 2 * |reports| {
        ReportIsFresh(reports[i / 2].href);
      }
    }
  }

  lemma ReportsDistinct(env: Env, storage: Storage, pub: Publication)
    requires SourceOk(env, storage, pub)
    ensures var reports := SourceManifest(storage, pub).reports;
      forall i, j :: 0 <= i < j < |reports| ==> reports[i].href != reports[j].href
  {
    hide CommittedOk, EntryOk, Required;
  }

  // ---- The journal and readiness -----------------------------------------------------------------

  datatype Journal = Journal(target: string, source: Publication, manifest: Manifest)

  /** The generation of the copies: the journalled one, or a new one. */
  function Generation(journal: Option<Journal>, newGeneration: string): string {
    if journal.Some? && journal.value.manifest.generation.Some? then journal.value.manifest.generation.value
      else newGeneration
  }

  predicate JournalOk(env: Env, pub: Publication, m: Manifest, journal: Option<Journal>)
    requires ManifestOk(m, false)
  {
    journal.Some? ==>
      journal.value.target == env.target && journal.value.source == pub
      && journal.value.manifest.generation.Some? && journal.value.manifest.generation.value != ""
      && journal.value.manifest == Prepared(m, journal.value.manifest.generation.value)
  }

  /** The old layout, with a journal that fits and only identical remnants in the way. */
  predicate Ready(env: Env, storage: Storage, pub: Publication, journal: Option<Journal>, newGeneration: string) {
    SourceOk(env, storage, pub) && JournalOk(env, pub, SourceManifest(storage, pub), journal)
    && Compatible(storage, Desired(env, storage, pub, Generation(journal, newGeneration)))
  }

  /** A state that migrate accepts when it is started with the given new generation. */
  predicate Acceptable(env: Env, storage: Storage, pub: Publication, journal: Option<Journal>, newGeneration: string) {
    if pub.meta.layout == PERIOD_LAYOUT then AlreadyOk(env, storage, pub)
    else Ready(env, storage, pub, journal, newGeneration)
  }

  // ---- What the migration changes in storage ----------------------------------------------------

  /** Nothing is overwritten, not even the browser index. */
  ghost predicate Extends(s: Storage, s': Storage) {
    forall k :: k in s ==> k in s' && s'[k] == s[k]
  }

  lemma RequiredStays(env: Env, s: Storage, s': Storage, key: string, etag: string)
    requires Kept(s, s') && key != SITE_INDEX && Required(env, s, key, etag)
    ensures Required(env, s', key, etag) && key in s && s'[key] == s[key]
  {
  }

  lemma IndexIsNotLegacy()
    ensures !LegacyKey(SITE_INDEX)
  {
    StableIsNotLegacy(SITE_INDEX);
  }

  lemma EntryKeys(e: Entry, stable: bool)
    requires EntryOk(e, stable)
    ensures e.htmlKey != SITE_INDEX && e.jsonKey != SITE_INDEX
  {
    if stable {
      ReportIsFresh(e.href);
    } else {
      hide ReportPath, PeriodKey;
      IndexIsNotLegacy();
      assert LegacyKey(e.htmlKey) && LegacyKey(e.jsonKey);
    }
  }

  lemma CommittedStays(env: Env, s: Storage, s': Storage, items: Items, m: Manifest, stable: bool)
    requires Kept(s, s') && CommittedOk(env, s, items, m) && ManifestOk(m, stable)
    ensures CommittedOk(env, s', items, m)
  {
    hide Required, EntryOk;
    forall i | 0 <= i < |m.reports| ensures EntryCommitted(env, s', items, m.reports[i]) {
      var e := m.reports[i];
      assert EntryCommitted(env, s, items, e);
      EntryKeys(e, stable);
      RequiredStays(env, s, s', e.htmlKey, items[e.href].htmlStamp);
      RequiredStays(env, s, s', e.jsonKey, items[e.href].jsonStamp);
    }
  }

  lemma SourceStays(env: Env, s: Storage, s': Storage, pub: Publication)
    requires Extends(s, s') && SourceOk(env, s, pub)
    ensures SourceOk(env, s', pub) && SourceManifest(s', pub) == SourceManifest(s, pub)
  {
    hide ManifestOk, CommittedOk, LegacyKey, AllowedKey;
    CommittedStays(env, s, s', pub.items, SourceManifest(s, pub), false);
  }

  /** A migrated publication does not depend on the browser index. */
  lemma AlreadyStays(env: Env, s: Storage, s': Storage, pub: Publication)
    requires Kept(s, s') && AlreadyOk(env, s, pub)
    ensures AlreadyOk(env, s', pub) && SameView(s, pub, s', pub)
  {
    hide ManifestOk, CommittedOk, Required, HasManifest;
    RequiredStays(env, s, s', REPORTS, pub.meta.manifestEtag);
    ReportsHasManifest(s, s');
    var m := s[REPORTS].body.manifest;
    CommittedStays(env, s, s', pub.items, m, true);
    if pub.meta.latestKey != "" {
      RequiredStays(env, s, s', LATEST, pub.meta.latestEtag);
    }
    CommittedView(env, s, s', pub, m, true);
  }

  lemma ReportsHasManifest(s: Storage, s': Storage)
    requires REPORTS in s && REPORTS in s' && s[REPORTS] == s'[REPORTS]
    ensures HasManifest(s, REPORTS) <==> HasManifest(s', REPORTS)
    ensures HasManifest(s, REPORTS) ==> s[REPORTS].body.ManifestText? && s'[REPORTS].body.ManifestText?
  {
  }

  lemma CommittedView(env: Env, s: Storage, s': Storage, pub: Publication, m: Manifest, stable: bool)
    requires Kept(s, s') && CommittedOk(env, s, pub.items, m) && ManifestOk(m, stable)
    ensures forall href :: Resolve(s, pub, href).Some? ==> Resolve(s', pub, href) == Resolve(s, pub, href)
  {
    hide Required, EntryOk;
    forall href | Resolve(s, pub, href).Some? ensures Resolve(s', pub, href) == Resolve(s, pub, href) {
      var i :| 0 <= i < |m.reports| && m.reports[i].href == href;
      assert EntryCommitted(env, s, pub.items, m.reports[i]);
      EntryKeys(m.reports[i], stable);
    }
  }

  lemma SourceView(env: Env, s: Storage, s': Storage, pub: Publication)
    requires Kept(s, s') && SourceOk(env, s, pub)
    ensures SameView(s, pub, s', pub)
  {
    hide ManifestOk, CommittedOk, Required, AllowedKey, LegacyKey;
    CommittedView(env, s, s', pub, SourceManifest(s, pub), false);
    assert pub.meta.latestKey != "" ==> pub.meta.latestKey[0] == 'p';
  }

  lemma DesiredStays(env: Env, s: Storage, s': Storage, pub: Publication, generation: string)
    requires Extends(s, s') && SourceOk(env, s, pub)
    ensures SourceOk(env, s', pub) && Desired(env, s', pub, generation) == Desired(env, s, pub, generation)
  {
    SourceStays(env, s, s', pub);
    var a, b := Desired(env, s, pub, generation), Desired(env, s', pub, generation);
    DesiredSize(env, s, pub, generation);
    DesiredSize(env, s', pub, generation);
    forall k | 0 <= k < |a| ensures a[k] == b[k] {
      hide Desired, SourceOk, ReportPath, JsonPath;
      DesiredAt(env, s, pub, generation, k);
      DesiredAt(env, s', pub, generation, k);
    }
  }

  /** The two copies of a published report. */
  lemma ReportCopied(env: Env, s: Storage, s': Storage, pub: Publication, generation: string, href: string)
    returns (i: nat)
    requires SourceOk(env, s, pub) && href in pub.items && pub.items[href].entry.Some?
    requires Copied(s', Desired(env, s, pub, generation), |Desired(env, s, pub, generation)|)
    ensures var reports := SourceManifest(s, pub).reports;
      i < |reports| && reports[i].href == href && pub.items[href].entry == Some(reports[i])
      && |href| >= 5 && ReportPath(href) && reports[i].htmlKey in s && reports[i].jsonKey in s
      && href in s' && JsonPath(href) in s' && s'[href].etag != "" && s'[JsonPath(href)].etag != ""
      && s'[href].body == s[reports[i].htmlKey].body && s'[JsonPath(href)].body == s[reports[i].jsonKey].body
  {
    hide *;
    i := PublishedAt(env, s, pub, href);
    DesiredSize(env, s, pub, generation);
    DesiredAt(env, s, pub, generation, 2 * i);
    DesiredAt(env, s, pub, generation, 2 * i + 1);
    CopiedAt(s', Desired(env, s, pub, generation), 2 * i);
    CopiedAt(s', Desired(env, s, pub, generation), 2 * i + 1);
    assert (2 * i) / 2 == i && (2 * i + 1) / 2 == i && (2 * i) % 2 == 0 && (2 * i + 1) % 2 == 1;
  }

  lemma CopiedAt(storage: Storage, copies: seq<Copy>, k: nat)
    requires Copied(storage, copies, |copies|) && k < |copies|
    ensures copies[k].key in storage
    ensures storage[copies[k].key].body == copies[k].body && storage[copies[k].key].etag != ""
  {
  }

  lemma LatestCopied(env: Env, s: Storage, s': Storage, pub: Publication, generation: string)
    requires SourceOk(env, s, pub) && pub.meta.latestKey != ""
    requires Copied(s', Desired(env, s, pub, generation), |Desired(env, s, pub, generation)|)
    ensures pub.meta.latestKey in s && LATEST in s' && s'[LATEST].etag != ""
    ensures s'[LATEST].body == s[pub.meta.latestKey].body
  {
    var k := 2 * |SourceManifest(s, pub).reports|;
    DesiredSize(env, s, pub, generation);
    DesiredAt(env, s, pub, generation, k);
    hide Desired, SourceOk, ReportPath, JsonPath;
    assert Desired(env, s, pub, generation)[k].key in s';
  }

  lemma ManifestCopied(env: Env, s: Storage, s': Storage, pub: Publication, generation: string)
    requires SourceOk(env, s, pub)
    requires Copied(s', Desired(env, s, pub, generation), |Desired(env, s, pub, generation)|)
    ensures REPORTS in s' && s'[REPORTS].etag != ""
    ensures s'[REPORTS].body == ManifestText(Prepared(SourceManifest(s, pub), generation))
  {
    var k := |Desired(env, s, pub, generation)| - 1;
    DesiredSize(env, s, pub, generation);
    DesiredAt(env, s, pub, generation, k);
    hide Desired, SourceOk, ReportPath, JsonPath, Prepared;
    assert Desired(env, s, pub, generation)[k].key in s';
  }

  lemma ResolveMoved(s: Storage, s': Storage, pub: Publication, href: string)
    requires href in pub.items && pub.items[href].entry.Some?
    requires var e := pub.items[href].entry.value;
      e.href == href && |href| >= 5 && e.htmlKey in s && e.jsonKey in s && href in s' && JsonPath(href) in s'
      && s'[href].body == s[e.htmlKey].body && s'[JsonPath(href)].body == s[e.jsonKey].body
    ensures Resolve(s, pub, href).Some? ==> Resolve(s', Moved(pub, s'), href) == Resolve(s, pub, href)
  {
    hide JsonPath;
  }

  /** What a reader sees after the copies exist and the pointers have moved. */
  lemma MovedView(env: Env, s: Storage, s': Storage, pub: Publication, generation: string)
    requires SourceOk(env, s, pub)
    requires Copied(s', Desired(env, s, pub, generation), |Desired(env, s, pub, generation)|)
    ensures SameView(s, pub, s', Moved(pub, s'))
  {
    hide SourceOk, Copied, Desired, Moved, JsonPath, ReportPath, SourceManifest;
    forall href | Resolve(s, pub, href).Some? ensures Resolve(s', Moved(pub, s'), href) == Resolve(s, pub, href) {
      var i := ReportCopied(env, s, s', pub, generation, href);
      ResolveMoved(s, s', pub, href);
    }
    LatestMoved(env, s, s', pub, generation);
  }

  lemma LatestMoved(env: Env, s: Storage, s': Storage, pub: Publication, generation: string)
    requires SourceOk(env, s, pub)
    requires Copied(s', Desired(env, s, pub, generation), |Desired(env, s, pub, generation)|)
    ensures ResolveLatest(s, pub).Some? ==> ResolveLatest(s', Moved(pub, s')) == ResolveLatest(s, pub)
  {
    hide SourceOk, Copied, Desired, MovedItem;
    if pub.meta.latestKey != "" {
      LatestCopied(env, s, s', pub, generation);
    }
  }

  /** The moved publication is one that the next start recognises as migrated. */
  lemma MovedIsAlreadyOk(env: Env, s: Storage, s': Storage, pub: Publication, generation: string)
    requires SourceOk(env, s, pub)
    requires Copied(s', Desired(env, s, pub, generation), |Desired(env, s, pub, generation)|)
    ensures AlreadyOk(env, s', Moved(pub, s'))
  {
    var moved := Moved(pub, s');
    ManifestCopied(env, s, s', pub, generation);
    LayoutIsFresh();
    if pub.meta.latestKey != "" {
      LatestCopied(env, s, s', pub, generation);
    }
    PreparedOk(SourceManifest(s, pub), generation);
    MovedCommitted(env, s, s', pub, generation);
    hide Copied, CommittedOk, ManifestOk, Prepared, LegacyKey, AllowedKey;
  }

  lemma PreparedOk(m: Manifest, generation: string)
    requires ManifestOk(m, false)
    ensures ManifestOk(Prepared(m, generation), true)
  {
    hide PeriodKey, ReportPath, JsonPath;
    var p := Prepared(m, generation);
    forall i | 0 <= i < |p.reports| ensures EntryOk(p.reports[i], true) {
      assert EntryOk(m.reports[i], false);
    }
  }

  lemma MovedCommitted(env: Env, s: Storage, s': Storage, pub: Publication, generation: string)
    requires SourceOk(env, s, pub)
    requires Copied(s', Desired(env, s, pub, generation), |Desired(env, s, pub, generation)|)
    ensures CommittedOk(env, s', Moved(pub, s').items, Prepared(SourceManifest(s, pub), generation))
  {
    var m := SourceManifest(s, pub);
    var p := Prepared(m, generation);
    var items := Moved(pub, s').items;
    forall i | 0 <= i < |p.reports| ensures EntryCommitted(env, s', items, p.reports[i]) {
      EntryMoves(env, s, s', pub, generation, i);
    }
    forall href | href in items && items[href].entry.Some?
      ensures exists i :: 0 <= i < |p.reports| && p.reports[i].href == href
    {
      var i := PublishedAt(env, s, pub, href);
      assert p.reports[i].href == href;
    }
  }

  lemma EntryMoves(env: Env, s: Storage, s': Storage, pub: Publication, generation: string, i: nat)
    requires SourceOk(env, s, pub) && i < |SourceManifest(s, pub).reports|
    requires Copied(s', Desired(env, s, pub, generation), |Desired(env, s, pub, generation)|)
    ensures EntryCommitted(env, s', Moved(pub, s').items, Prepared(SourceManifest(s, pub), generation).reports[i])
  {
    var e := SourceManifest(s, pub).reports[i];
    EntryIsCommitted(env, s, pub, i);
    PreparedAt(SourceManifest(s, pub), generation, i);
    hide SourceOk, Copied, Desired, ReportPath, JsonPath, SourceManifest, Prepared, Stabilised, MovedItem;
    hide EntryCommitted;
    var j := ReportCopied(env, s, s', pub, generation, e.href);
    ReportIsFresh(e.href);
    MovedEntry(env, s', Moved(pub, s').items, pub.items[e.href], e);
  }

  lemma PreparedAt(m: Manifest, generation: string, i: nat)
    requires ManifestOk(m, false) && i < |m.reports|
    ensures |m.reports[i].href| >= 5 && |Prepared(m, generation).reports| == |m.reports|
    ensures Prepared(m, generation).reports[i] == Stabilised(m.reports[i])
  {
    assert EntryOk(m.reports[i], false);
  }

  lemma MovedEntry(env: Env, s': Storage, items': Items, item: Item, e: Entry)
    requires item.entry == Some(e) && |e.href| >= 5 && Fresh(e.href) && Fresh(JsonPath(e.href))
    requires e.href in s' && JsonPath(e.href) in s' && s'[e.href].etag != "" && s'[JsonPath(e.href)].etag != ""
    requires e.href in items' && items'[e.href] == MovedItem(item, s')
    ensures EntryCommitted(env, s', items', Stabilised(e))
  {
    hide JsonPath, AllowedKey, LegacyKey;
  }

  lemma EntryIsCommitted(env: Env, s: Storage, pub: Publication, i: nat)
    requires SourceOk(env, s, pub) && i < |SourceManifest(s, pub).reports|
    ensures var e := SourceManifest(s, pub).reports[i];
      e.href in pub.items && pub.items[e.href].entry == Some(e) && |e.href| >= 5 && ReportPath(e.href)
  {
    hide Required, LegacyKey, AllowedKey, HashPart, PeriodKey;
    EntriesReadable(env, s, pub);
    assert EntryCommitted(env, s, pub.items, SourceManifest(s, pub).reports[i]);
  }

  lemma PublishedAt(env: Env, s: Storage, pub: Publication, href: string) returns (i: nat)
    requires SourceOk(env, s, pub) && href in pub.items && pub.items[href].entry.Some?
    ensures var reports := SourceManifest(s, pub).reports;
      i < |reports| && reports[i].href == href && pub.items[href].entry == Some(reports[i])
      && |href| >= 5 && ReportPath(href) && reports[i].htmlKey in s && reports[i].jsonKey in s
  {
    hide ReportPath, AllowedKey, LegacyKey, HashPart, PeriodKey;
    EntriesReadable(env, s, pub);
    var reports := SourceManifest(s, pub).reports;
    i :| 0 <= i < |reports| && reports[i].href == href;
    assert EntryCommitted(env, s, pub.items, reports[i]);
  }

  // ---- Rollback material ---------------------------------------------------------------------------

  /** An original object: where it is, where it was copied to, and its bytes. */
  datatype Saved = Saved(source: string, destination: string, etag: string, backup: Body)

  datatype Inventory = Inventory(target: string, source: Publication, original: Publication,
                                 manifestBackup: Body, manifestEtag: string, indexBackup: Body, objects: set<Saved>)

  function InventoryOf(env: Env, s: Storage, pub: Publication): Inventory
    requires SourceOk(env, s, pub)
  {
    EntriesReadable(env, s, pub);
    var reports := SourceManifest(s, pub).reports;
    var manifest := s[pub.meta.manifestKey];
    var latest := if pub.meta.latestKey != ""
                  then {Saved(pub.meta.latestKey, LATEST, s[pub.meta.latestKey].etag, s[pub.meta.latestKey].body)}
                  else {};
    Inventory(env.target, pub, pub, manifest.body, manifest.etag, s[SITE_INDEX].body,
    (set i | 0 <= i < |reports| ::
       Saved(reports[i].htmlKey, reports[i].href, s[reports[i].htmlKey].etag, s[reports[i].htmlKey].body))
    + (set i | 0 <= i < |reports| ::
         Saved(reports[i].jsonKey, JsonPath(reports[i].href), s[reports[i].jsonKey].etag, s[reports[i].jsonKey].body))
    + latest)
  }

  /** What rollback demands of storage and of the private copies. */
  predicate OriginalIntact(env: Env, s: Storage, inv: Inventory, backups: set<Body>) {
    var original := inv.original;
    inv.target == env.target && inv.source == original && original.meta.target == env.target
    && Required(env, s, original.meta.manifestKey, inv.manifestEtag)
    && inv.manifestBackup in backups && s[original.meta.manifestKey].body == inv.manifestBackup
    && HasManifest(s, original.meta.manifestKey) && ManifestOk(s[original.meta.manifestKey].body.manifest, false)
    && CommittedOk(env, s, original.items, s[original.meta.manifestKey].body.manifest)
    && (forall o :: o in inv.objects ==>
          Required(env, s, o.source, o.etag) && o.backup in backups && s[o.source].body == o.backup)
    && (original.meta.latestKey != "" ==> Required(env, s, original.meta.latestKey, ""))
  }

  /** The states in which rollback goes ahead. */
  predicate CanRollBack(env: Env, s: Storage, pub: Publication, inv: Option<Inventory>, committed: Option<Publication>,
                        backups: set<Body>) {
    inv.Some? && committed.Some? && (pub == committed.value || pub == inv.value.original)
    && OriginalIntact(env, s, inv.value, backups)
  }

  function Backups(env: Env, s: Storage, pub: Publication): set<Body>
    requires SourceOk(env, s, pub)
  {
    {s[pub.meta.manifestKey].body, s[SITE_INDEX].body} + set o | o in InventoryOf(env, s, pub).objects :: o.backup
  }

  lemma SavedIsRequired(env: Env, s: Storage, pub: Publication, o: Saved)
    requires SourceOk(env, s, pub) && o in InventoryOf(env, s, pub).objects
    ensures Required(env, s, o.source, o.etag) && o.source != SITE_INDEX && s[o.source].body == o.backup && o.etag != ""
  {
    hide LegacyKey, AllowedKey, HashPart, ReportPath, JsonPath, PeriodKey, HashNamed;
    EntriesReadable(env, s, pub);
    var reports := SourceManifest(s, pub).reports;
    forall i | 0 <= i < |reports|
      ensures EntryCommitted(env, s, pub.items, reports[i]) && reports[i].htmlKey != SITE_INDEX
        && reports[i].jsonKey != SITE_INDEX
    {
      assert EntryOk(reports[i], false);
      EntryKeys(reports[i], false);
    }
    assert pub.meta.latestKey != "" ==> pub.meta.latestKey[0] == 'p';
  }

  lemma ObjectsIntact(env: Env, s: Storage, s': Storage, pub: Publication, backups: set<Body>)
    requires SourceOk(env, s, pub) && Kept(s, s') && Backups(env, s, pub) <= backups
    ensures forall o :: o in InventoryOf(env, s, pub).objects ==>
      Required(env, s', o.source, o.etag) && o.backup in backups && s'[o.source].body == o.backup
  {
    hide InventoryOf, Required;
    forall o | o in InventoryOf(env, s, pub).objects
      ensures Required(env, s', o.source, o.etag) && o.backup in backups && o.source in s'
        && s'[o.source].body == o.backup
    {
      SavedIsRequired(env, s, pub, o);
      RequiredStays(env, s, s', o.source, o.etag);
      assert o.backup in Backups(env, s, pub);
    }
  }

  lemma SourceIntact(env: Env, s: Storage, s': Storage, pub: Publication)
    requires SourceOk(env, s, pub) && Kept(s, s')
    ensures pub.meta.target == env.target && pub.meta.manifestKey in s && pub.meta.manifestKey in s'
    ensures s'[pub.meta.manifestKey] == s[pub.meta.manifestKey]
    ensures Required(env, s', pub.meta.manifestKey, s[pub.meta.manifestKey].etag)
    ensures HasManifest(s', pub.meta.manifestKey) && ManifestOk(s'[pub.meta.manifestKey].body.manifest, false)
    ensures CommittedOk(env, s', pub.items, s'[pub.meta.manifestKey].body.manifest)
    ensures pub.meta.latestKey != "" ==> Required(env, s', pub.meta.latestKey, "")
  {
    hide ManifestOk, CommittedOk, LegacyKey, AllowedKey;
    assert pub.meta.manifestKey[0] == 'p';
    assert pub.meta.latestKey != "" ==> pub.meta.latestKey[0] == 'p';
    CommittedStays(env, s, s', pub.items, SourceManifest(s, pub), false);
  }

  lemma InventoryNames(env: Env, s: Storage, pub: Publication)
    requires SourceOk(env, s, pub)
    ensures pub.meta.manifestKey in s
    ensures var inv := InventoryOf(env, s, pub);
      inv.target == env.target && inv.source == pub && inv.original == pub
      && inv.manifestBackup == s[pub.meta.manifestKey].body && inv.manifestEtag == s[pub.meta.manifestKey].etag
    ensures s[pub.meta.manifestKey].body in Backups(env, s, pub)
  {
    hide ManifestOk, CommittedOk, LegacyKey, AllowedKey;
  }

  /** The inventory of an accepted source stays good for a rollback as long as no original
      object is overwritten. */
  lemma InventoryIntact(env: Env, s: Storage, s': Storage, pub: Publication, backups: set<Body>)
    requires SourceOk(env, s, pub) && Kept(s, s') && Backups(env, s, pub) <= backups
    ensures OriginalIntact(env, s', InventoryOf(env, s, pub), backups)
  {
    ObjectsIntact(env, s, s', pub, backups);
    SourceIntact(env, s, s', pub);
    InventoryNames(env, s, pub);
    hide InventoryOf, Required, HasManifest, ManifestOk, CommittedOk, SourceOk, Backups, Kept;
  }

  // ---- The tools ------------------------------------------------------------------------------------

  // ---- Every state on the way is as good as the first ---------------------------------------------

  /** The journal names the generation, and nothing but copies has been added. */
  ghost predicate Underway(env: Env, s0: Storage, p0: Publication, journal: Option<Journal>, generation: string,
                           s: Storage) {
    SourceOk(env, s0, p0) && journal.Some? && JournalOk(env, p0, SourceManifest(s0, p0), journal)
    && generation == journal.value.manifest.generation.value
    && Extends(s0, s) && Compatible(s, Desired(env, s0, p0, generation))
  }

  /** What holds of a run of migrate wherever it stops once its journal is written. */
  ghost predicate MigrationKept(env: Env, s0: Storage, p0: Publication, s: Storage, p: Publication,
                                journal: Option<Journal>,
                                inv: Option<Inventory>, committed: Option<Publication>, backups: set<Body>) {
    Kept(s0, s) && SameView(s0, p0, s, p) && (p == p0 || p == Moved(p0, s))
    && (forall g :: g != "" ==> Acceptable(env, s, p, journal, g))
    && (p != p0 ==> inv.Some? && inv.value.original == p0)
    && (p != p0 ==> (CanRollBack(env, s, p, inv, committed, backups) <==> committed == Some(p)))
  }

  lemma KeptMeans(env: Env, s0: Storage, p0: Publication, s: Storage, p: Publication, journal: Option<Journal>,
                  inv: Option<Inventory>, committed: Option<Publication>, backups: set<Body>)
    requires MigrationKept(env, s0, p0, s, p, journal, inv, committed, backups)
    ensures Kept(s0, s) && SameView(s0, p0, s, p) && (p == p0 || p == Moved(p0, s))
    ensures forall g :: g != "" ==> Acceptable(env, s, p, journal, g)
    ensures p != p0 ==> inv.Some? && inv.value.original == p0
    ensures p != p0 ==> (CanRollBack(env, s, p, inv, committed, backups) <==> committed == Some(p))
  {
    hide Kept, SameView, Moved, Acceptable, CanRollBack;
  }

  lemma AlreadyAcceptable(env: Env, s: Storage, p: Publication, journal: Option<Journal>, newGeneration: string)
    requires p.meta.layout == PERIOD_LAYOUT
    ensures Acceptable(env, s, p, journal, newGeneration) <==> AlreadyOk(env, s, p)
  {
  }

  lemma SourceMeans(env: Env, s: Storage, p: Publication)
    requires SourceOk(env, s, p)
    ensures HasManifest(s, p.meta.manifestKey) && ManifestOk(SourceManifest(s, p), false)
  {
    hide ManifestOk;
  }

  /** What refuses a publication in the old layout. */
  lemma AcceptableMeans(env: Env, s: Storage, p: Publication, journal: Option<Journal>, newGeneration: string)
    requires p.meta.layout != PERIOD_LAYOUT
    ensures !SourceOk(env, s, p) ==> !Acceptable(env, s, p, journal, newGeneration)
    ensures SourceOk(env, s, p) ==> HasManifest(s, p.meta.manifestKey) && ManifestOk(SourceManifest(s, p), false)
    ensures SourceOk(env, s, p) ==>
      (Acceptable(env, s, p, journal, newGeneration) <==>
         JournalOk(env, p, SourceManifest(s, p), journal)
         && Compatible(s, Desired(env, s, p, Generation(journal, newGeneration))))
  {
    hide ManifestOk, JournalOk, Compatible, Desired;
  }

  lemma NothingKept(s: Storage, p: Publication)
    ensures Kept(s, s) && SameView(s, p, s, p)
  {
    hide Resolve, ResolveLatest;
  }

  lemma KeptRefl(s: Storage)
    ensures Kept(s, s) && Extends(s, s)
  {
  }

  lemma IndexKeeps(s: Storage, s': Storage)
    requires forall k :: k != SITE_INDEX ==> (k in s' <==> k in s) && (k in s' ==> s'[k] == s[k])
    ensures Kept(s, s')
  {
  }

  lemma KeptTransitive(a: Storage, b: Storage, c: Storage)
    requires Kept(a, b) && Kept(b, c)
    ensures Kept(a, c)
  {
  }

  lemma ViewTransitive(a: Storage, p: Publication, b: Storage, q: Publication, c: Storage, r: Publication)
    requires SameView(a, p, b, q) && SameView(b, q, c, r)
    ensures SameView(a, p, c, r)
  {
    hide Resolve, ResolveLatest;
  }

  lemma AlreadyMeans(env: Env, s: Storage, pub: Publication)
    requires AlreadyOk(env, s, pub)
    ensures pub.meta.manifestKey != SITE_INDEX
  {
  }

  lemma UnderwayMeans(env: Env, s0: Storage, p0: Publication, journal: Option<Journal>, generation: string, s: Storage)
    requires Underway(env, s0, p0, journal, generation, s)
    ensures SourceOk(env, s0, p0) && Extends(s0, s) && Kept(s0, s) && Compatible(s, Desired(env, s0, p0, generation))
  {
    hide SourceOk, Desired, JournalOk, Compatible;
  }

  lemma StillUnderway(env: Env, s0: Storage, p0: Publication, journal: Option<Journal>, generation: string, s: Storage)
    requires Underway(env, s0, p0, journal, generation, s0) && SourceOk(env, s0, p0)
    requires Extends(s0, s) && Compatible(s, Desired(env, s0, p0, generation))
    ensures Underway(env, s0, p0, journal, generation, s)
  {
    hide SourceOk, Desired, JournalOk, Compatible, Extends;
  }

  lemma UnderwayIsKept(env: Env, s0: Storage, p0: Publication, journal: Option<Journal>, generation: string, s: Storage,
                       inv: Option<Inventory>, committed: Option<Publication>, backups: set<Body>)
    requires Underway(env, s0, p0, journal, generation, s) && p0.meta.layout != PERIOD_LAYOUT
    ensures MigrationKept(env, s0, p0, s, p0, journal, inv, committed, backups)
  {
    UnderwayMeans(env, s0, p0, journal, generation, s);
    DesiredStays(env, s0, s, p0, generation);
    SourceStays(env, s0, s, p0);
    SourceView(env, s0, s, p0);
    hide SourceOk, Desired, JournalOk, Compatible, Extends, Kept, SameView, Moved, SourceManifest, AlreadyOk;
  }

  lemma MovedLayout(p: Publication, s: Storage)
    ensures Moved(p, s).meta.layout == PERIOD_LAYOUT && Moved(p, s).meta.manifestKey != SITE_INDEX
  {
  }

  lemma MovedIs(p: Publication, s: Storage, items: Items)
    requires items == Moved(p, s).items
    ensures Publication(items, MovedMeta(p.meta, s)) == Moved(p, s)
  {
  }

  lemma MoveReady(env: Env, s: Storage, p: Publication)
    requires SourceOk(env, s, p)
    ensures var reports := SourceManifest(s, p).reports;
      (forall i :: 0 <= i < |reports| ==> |reports[i].href| >= 5 && reports[i].href in p.items)
      && (forall i :: 0 <= i < |reports| ==> p.items[reports[i].href].entry == Some(reports[i]))
      && forall href :: href in p.items && p.items[href].entry.Some? ==>
           exists i :: 0 <= i < |reports| && reports[i].href == href
  {
    hide Required, LegacyKey, AllowedKey, ReportPath;
    var reports := SourceManifest(s, p).reports;
    forall i | 0 <= i < |reports|
      ensures |reports[i].href| >= 5 && reports[i].href in p.items && p.items[reports[i].href].entry == Some(reports[i])
    {
      EntryIsCommitted(env, s, p, i);
    }
  }

  lemma MovedIsKept(env: Env, s0: Storage, p0: Publication, journal: Option<Journal>, generation: string, s: Storage,
                    inv: Option<Inventory>, committed: Option<Publication>, backups: set<Body>)
    requires Underway(env, s0, p0, journal, generation, s) && p0.meta.layout != PERIOD_LAYOUT && SourceOk(env, s0, p0)
    requires Copied(s, Desired(env, s0, p0, generation), |Desired(env, s0, p0, generation)|)
    requires inv == Some(InventoryOf(env, s0, p0)) && Backups(env, s0, p0) <= backups
    ensures MigrationKept(env, s0, p0, s, Moved(p0, s), journal, inv, committed, backups)
  {
    UnderwayMeans(env, s0, p0, journal, generation, s);
    MovedView(env, s0, s, p0, generation);
    MovedIsAlreadyOk(env, s0, s, p0, generation);
    MovedLayout(p0, s);
    InventoryIntact(env, s0, s, p0, backups);
    InventoryNames(env, s0, p0);
    hide SourceOk, Desired, JournalOk, Compatible, Copied, Kept, SameView, Moved, SourceManifest, AlreadyOk;
    hide OriginalIntact, InventoryOf, Backups, Ready, Underway;
  }

  lemma AcceptedIsAlreadyOk(env: Env, p0: Publication, s: Storage, journal: Option<Journal>)
    requires forall g :: g != "" ==> Acceptable(env, s, Moved(p0, s), journal, g)
    ensures AlreadyOk(env, s, Moved(p0, s))
  {
    hide AlreadyOk, Ready;
    assert Acceptable(env, s, Moved(p0, s), journal, "0");
  }

  lemma IndexIsKept(env: Env, s0: Storage, p0: Publication, s1: Storage, s: Storage, p: Publication,
                    journal: Option<Journal>,
                    inv: Option<Inventory>, committed: Option<Publication>, backups: set<Body>)
    requires MigrationKept(env, s0, p0, s1, p, journal, inv, committed, backups) && p == Moved(p0, s1) && Kept(s1, s)
    requires SourceOk(env, s0, p0) && inv == Some(InventoryOf(env, s0, p0)) && Backups(env, s0, p0) <= backups
    requires committed == Some(p)
    ensures MigrationKept(env, s0, p0, s, p, journal, inv, committed, backups)
  {
    AcceptedIsAlreadyOk(env, p0, s1, journal);
    AlreadyStays(env, s1, s, p);
    KeptTransitive(s0, s1, s);
    ViewTransitive(s0, p0, s1, p, s, p);
    MovedSame(env, p0, s1, s);
    MovedLayout(p0, s1);
    InventoryIntact(env, s0, s, p0, backups);
    hide SourceOk, Kept, SameView, Moved, AlreadyOk, OriginalIntact, InventoryOf, Backups, Ready;
  }

  lemma AlreadyHas(env: Env, s: Storage, p: Publication)
    requires AlreadyOk(env, s, p)
    ensures REPORTS in s && (p.meta.latestKey != "" ==> LATEST in s)
  {
    hide ManifestOk, CommittedOk;
  }

  /** The moved records name only objects that the browser index is none of. */
  lemma MovedSame(env: Env, p0: Publication, s: Storage, s': Storage)
    requires Kept(s, s') && AlreadyOk(env, s, Moved(p0, s))
    ensures Moved(p0, s') == Moved(p0, s)
  {
    LayoutIsFresh();
    AlreadyHas(env, s, Moved(p0, s));
    hide MovedItem, AlreadyOk, AllowedKey, LegacyKey;
    forall href | href in p0.items ensures MovedItem(p0.items[href], s') == MovedItem(p0.items[href], s) {
      MovedItemSame(env, p0, s, s', href);
    }
  }

  lemma MovedItemSame(env: Env, p0: Publication, s: Storage, s': Storage, href: string)
    requires Kept(s, s') && AlreadyOk(env, s, Moved(p0, s)) && href in p0.items
    ensures MovedItem(p0.items[href], s') == MovedItem(p0.items[href], s)
  {
    hide LegacyKey, PeriodKey, JsonPath, AllowedKey;
    var item := p0.items[href];
    var moved := Moved(p0, s).items;
    if item.entry.Some? && |item.entry.value.href| >= 5 {
      var m := s[REPORTS].body.manifest;
      assert href in moved && moved[href].entry == Some(Stabilised(item.entry.value));
      var i :| 0 <= i < |m.reports| && m.reports[i].href == href;
      assert EntryCommitted(env, s, moved, m.reports[i]) && EntryOk(m.reports[i], true);
      EntryKeys(m.reports[i], true);
    }
  }

  lemma StartIsKept(env: Env, s: Storage, p: Publication, journal: Option<Journal>, newGeneration: string)
    requires SourceOk(env, s, p) && JournalOk(env, p, SourceManifest(s, p), journal) && p.meta.layout != PERIOD_LAYOUT
    requires Compatible(s, Desired(env, s, p, Generation(journal, newGeneration)))
    ensures Acceptable(env, s, p, journal, newGeneration) && Kept(s, s) && SameView(s, p, s, p)
    ensures journal.Some? ==> forall g :: Acceptable(env, s, p, journal, g)
  {
    KeptRefl(s);
    SourceView(env, s, s, p);
    hide SourceOk, Compatible, Desired, AlreadyOk, SameView, Kept;
  }

  /** The journal is written before the first copy, so every later start uses its generation. */
  lemma JournalWritten(env: Env, s: Storage, p: Publication, before: Option<Journal>, after: Option<Journal>,
                       newGeneration: string)
    requires SourceOk(env, s, p) && JournalOk(env, p, SourceManifest(s, p), before) && newGeneration != ""
    requires Compatible(s, Desired(env, s, p, Generation(before, newGeneration)))
    requires after == if before.Some? then before
                      else Some(Journal(env.target, p,
                                        Prepared(SourceManifest(s, p), Generation(before, newGeneration))))
    ensures Underway(env, s, p, after, Generation(before, newGeneration), s)
  {
    KeptRefl(s);
    PreparedNames(SourceManifest(s, p), Generation(before, newGeneration));
    hide SourceOk, Compatible, Desired, Prepared, Extends;
  }

  lemma PreparedNames(m: Manifest, generation: string)
    requires ManifestOk(m, false)
    ensures Prepared(m, generation).generation == Some(generation)
  {
  }

  /** The browser index shows the committed publication. */
  predicate Projected(s: Storage, pub: Publication) {
    HasManifest(s, pub.meta.manifestKey) && SITE_INDEX in s
    && s[SITE_INDEX].body == IndexText(IndexOf(pub.meta, s[pub.meta.manifestKey].body.manifest))
  }

  /** The records of the first n reports have been rewritten. */
  ghost predicate MovedSoFar(before: Items, storage: Storage, reports: seq<Entry>, items: Items, n: nat) {
    items.Keys == before.Keys
    && forall href :: href in items ==>
         items[href] == MovedItem(before[href], storage)
         || (items[href] == before[href] && forall j :: 0 <= j < n && j < |reports| ==> reports[j].href != href)
  }

  lemma NothingMoved(before: Items, storage: Storage, reports: seq<Entry>)
    ensures MovedSoFar(before, storage, reports, before, 0)
  {
    hide MovedItem;
  }

  lemma OneMoved(before: Items, storage: Storage, reports: seq<Entry>, items: Items, n: nat)
    requires MovedSoFar(before, storage, reports, items, n) && n < |reports|
    requires |reports[n].href| >= 5 && reports[n].href in before && before[reports[n].href].entry == Some(reports[n])
    ensures var e := Stabilised(reports[n]);
      MovedSoFar(before, storage, reports,
                 items[e.href := Item(Some(e), EtagOf(storage, e.htmlKey), EtagOf(storage, e.jsonKey),
                                      before[e.href].rest)], n + 1)
  {
    var href := reports[n].href;
    assert MovedItem(before[href], storage)
      == Item(Some(Stabilised(reports[n])), EtagOf(storage, href), EtagOf(storage, JsonPath(href)), before[href].rest);
    hide MovedItem, EtagOf, JsonPath;
  }

  lemma AllMoved(pub: Publication, storage: Storage, reports: seq<Entry>, items: Items)
    requires MovedSoFar(pub.items, storage, reports, items, |reports|)
    requires forall href :: href in pub.items && pub.items[href].entry.Some? ==>
      exists i :: 0 <= i < |reports| && reports[i].href == href
    ensures items == Moved(pub, storage).items
  {
    forall href | href in items ensures items[href] == MovedItem(pub.items[href], storage) {
      if pub.items[href].entry.Some? {
        var i :| 0 <= i < |reports| && reports[i].href == href;
      }
    }
  }

  /** The browser index of the publication can be written. */
  ghost predicate Indexable(env: Env, storage: Storage, pub: Publication) {
    var meta := pub.meta;
    meta.target == env.target && HasManifest(storage, meta.manifestKey)
    && (meta.manifestEtag != "" ==> storage[meta.manifestKey].etag == meta.manifestEtag)
  }

  lemma AlreadyIndexable(env: Env, s: Storage, pub: Publication)
    requires AlreadyOk(env, s, pub)
    ensures Indexable(env, s, pub)
  {
    hide ManifestOk, CommittedOk, LegacyKey, AllowedKey;
  }

  lemma MovedIndexable(env: Env, s: Storage, s': Storage, pub: Publication, generation: string)
    requires SourceOk(env, s, pub)
    requires Copied(s', Desired(env, s, pub, generation), |Desired(env, s, pub, generation)|)
    ensures Indexable(env, s', Moved(pub, s'))
  {
    MovedIsAlreadyOk(env, s, s', pub, generation);
    AlreadyIndexable(env, s', Moved(pub, s'));
  }

  /** The copies are two for each published report, the latest page and the manifest. */
  lemma DesiredCount(env: Env, s: Storage, pub: Publication, generation: string)
    requires SourceOk(env, s, pub)
    ensures |Desired(env, s, pub, generation)| <= 2 * |pub.items| + 2
  {
    var reports := SourceManifest(s, pub).reports;
    MoveReady(env, s, pub);
    hide ReportPath, PeriodKey, HashNamed, Required;
    HrefCount(reports, |reports|, pub.items.Keys);
    assert |pub.items.Keys| == |pub.items|;
  }

  lemma {:induction false} HrefCount(reports: seq<Entry>, n: nat, hrefs: set<string>)
    requires n <= |reports| && forall i :: 0 <= i < n ==> reports[i].href in hrefs
    requires forall i, j :: 0 <= i < j < |reports| ==> reports[i].href != reports[j].href
    ensures n <= |hrefs|
  {
    if n > 0 {
      HrefCount(reports, n - 1, hrefs - {reports[n - 1].href});
    }
  }

  /** As many effects as a start of migrate can have. */
  function Effects(pub: Publication): nat {
    if pub.meta.layout == PERIOD_LAYOUT then 2 else 2 * |pub.items| + 7
  }

  /** What a start that is neither refused nor interrupted reports. */
  function Outcome(pub: Publication, apply: bool): Status {
    if pub.meta.layout == PERIOD_LAYOUT then AlreadyMigrated else if apply then Migrated else DryRun
  }

  lemma StartEffects(pub: Publication, apply: bool)
    ensures pub.meta.layout == PERIOD_LAYOUT ==> Effects(pub) == 2 && Outcome(pub, apply) == AlreadyMigrated
    ensures pub.meta.layout != PERIOD_LAYOUT ==>
      Effects(pub) == 2 * |pub.items| + 7 && Outcome(pub, apply) == if apply then Migrated else DryRun
  {
  }

  datatype Status = Refused | Interrupted | DryRun | AlreadyMigrated | Migrated | RolledBack

  class World {
    var storage: Storage
    var pub: Publication
    var journal: Option<Journal>
    var inventory: Option<Inventory>
    var committed: Option<Publication>
    var backups: set<Body>
    /** How many more effects the process survives while it holds its lease. */
    var left: nat

    method Reach() returns (alive: bool)
      modifies this`left
      ensures alive <==> old(left) > 0
      ensures left == old(left) - (if alive then 1 else 0)
    {
      alive := left > 0;
      if alive {
        left := left - 1;
      }
    }

    /** Conditional creation (If-None-Match, section 13.1.2 of RFC 9110): an existing object
        makes it fail. */
    method Create(key: string, body: Body) returns (etag: Option<string>)
      modifies this`storage
      ensures key in old(storage) ==> storage == old(storage) && etag == None
      ensures key !in old(storage) ==>
        etag.Some? && etag.value != "" && storage == old(storage)[key := Stored(body, etag.value)]
    {
      if key in storage {
        return None;
      }
      var stamp: string := *;
      if stamp == "" {
        stamp := "0";
      }
      storage := storage[key := Stored(body, stamp)];
      etag := Some(stamp);
    }

    /** PublicationRepository.save: a compare-and-set that also fails when the lease is lost. */
    method Save(updated: Publication, previous: Publication) returns (ok: bool)
      modifies this`pub, this`left
      ensures ok ==> old(pub) == previous && pub == updated
      ensures !ok ==> pub == old(pub)
      ensures left <= old(left) <= left + 1 && (old(pub) == previous && old(left) > 0 ==> ok)
    {
      var held := Reach();
      if !held || pub != previous {
        return false;
      }
      pub := updated;
      ok := true;
    }

    /** CloudPublication.update_site_index: the browser index follows the committed pointers. */
    method UpdateSiteIndex(env: Env) returns (ok: bool)
      modifies this`storage, this`left
      ensures left <= old(left) <= left + 1
      ensures Indexable(env, old(storage), pub) && old(left) > 0 ==> ok
      ensures forall k :: k != SITE_INDEX ==>
        (k in storage <==> k in old(storage)) && (k in storage ==> storage[k] == old(storage)[k])
      ensures ok && pub.meta.manifestKey != SITE_INDEX ==> Projected(storage, pub)
    {
      var meta := pub.meta;
      if meta.target != env.target || !HasManifest(storage, meta.manifestKey)
         || (meta.manifestEtag != "" && storage[meta.manifestKey].etag != meta.manifestEtag) {
        return false;
      }
      assert Indexable(env, storage, pub);
      var body := IndexText(IndexOf(meta, storage[meta.manifestKey].body.manifest));
      if SITE_INDEX in storage && storage[SITE_INDEX].body == body {
        return true;
      }
      var won := Reach();
      if !won {
        return false;
      }
      var stamp: string := *;
      if stamp == "" {
        stamp := "0";
      }
      storage := storage[SITE_INDEX := Stored(body, stamp)];
      ok := true;
    }

    /** The loop of migrate over the objects to create. No copy is written over an object. */
    method CreateCopies(copies: seq<Copy>) returns (status: Status)
      requires Compatible(storage, copies) && DistinctKeys(copies)
      modifies this`storage, this`left
      ensures left <= old(left) <= left + |copies| && (old(left) >= |copies| ==> status == Migrated)
      ensures Extends(old(storage), storage) && Compatible(storage, copies)
      ensures forall k :: k in storage && k !in old(storage) ==> exists i :: 0 <= i < |copies| && copies[i].key == k
      ensures status == Interrupted || (status == Migrated && Copied(storage, copies, |copies|))
    {
      var i := 0;
      while i < |copies|
        invariant i <= |copies| && Extends(old(storage), storage) && Compatible(storage, copies)
          && Copied(storage, copies, i)
        invariant left <= old(left) <= left + i
        invariant forall k :: k in storage && k !in old(storage) ==> exists j :: 0 <= j < |copies| && copies[j].key == k
      {
        var alive := Reach();
        if !alive {
          return Interrupted;
        }
        var copy := copies[i];
        if copy.key !in storage {
          var etag := Create(copy.key, copy.body);
        }
        if storage[copy.key].body != copy.body || storage[copy.key].etag == "" {
          return Refused;
        }
        i := i + 1;
      }
      return Migrated;
    }

    /** The loop of migrate that rewrites the committed records of the reports. */
    method MoveItems(reports: seq<Entry>) returns (items: Items)
      requires forall i :: 0 <= i < |reports| ==> |reports[i].href| >= 5 && reports[i].href in pub.items
      requires forall i :: 0 <= i < |reports| ==> pub.items[reports[i].href].entry == Some(reports[i])
      requires forall href :: href in pub.items && pub.items[href].entry.Some? ==>
        exists i :: 0 <= i < |reports| && reports[i].href == href
      ensures items == Moved(pub, storage).items
    {
      items := pub.items;
      NothingMoved(pub.items, storage, reports);
      hide MovedSoFar, JsonPath, Moved;
      for i := 0 to |reports|
        invariant MovedSoFar(pub.items, storage, reports, items, i)
      {
        var e := Stabilised(reports[i]);
        OneMoved(pub.items, storage, reports, items, i);
        items := items[e.href := Item(Some(e), EtagOf(storage, e.htmlKey), EtagOf(storage, e.jsonKey),
                                      pub.items[e.href].rest)];
      }
      AllMoved(pub, storage, reports, items);
    }

    /** The branch of migrate for a publication that already uses the new layout. */
    method FinishMigrated(env: Env, apply: bool) returns (status: Status)
      modifies this`storage, this`backups, this`left
      ensures status == Refused <==> !AlreadyOk(env, old(storage), pub)
      ensures old(left) >= 2 ==> status != Interrupted
      ensures status == Refused ==> storage == old(storage) && backups == old(backups)
      ensures old(backups) <= backups
      ensures status != Migrated && status != RolledBack && status != DryRun
      ensures Kept(old(storage), storage) && SameView(old(storage), pub, storage, pub)
      ensures status != Refused ==> AlreadyOk(env, storage, pub)
      ensures status == AlreadyMigrated && apply ==> Projected(storage, pub)
    {
      if !AlreadyOk(env, storage, pub) {
        return Refused;
      }
      hide *;
      ghost var s0 := storage;
      KeptRefl(s0);
      AlreadyStays(env, s0, s0, pub);
      if apply {
        if SITE_INDEX in storage {
          backups := backups + {storage[SITE_INDEX].body};
        }
        var alive := Reach();
        if !alive {
          return Interrupted;
        }
        AlreadyIndexable(env, storage, pub);
        var ok := UpdateSiteIndex(env);
        IndexKeeps(s0, storage);
        AlreadyStays(env, s0, storage, pub);
        AlreadyMeans(env, s0, pub);
        if !ok {
          return Interrupted;
        }
      }
      return AlreadyMigrated;
    }

    /** From the first conditional put to the browser index. */
    method CopyAndSwitch(env: Env, generation: string) returns (status: Status)
      requires pub.meta.layout != PERIOD_LAYOUT && Underway(env, storage, pub, journal, generation, storage)
      requires SourceOk(env, storage, pub) && inventory == Some(InventoryOf(env, storage, pub))
      requires Backups(env, storage, pub) <= backups
      modifies this`storage, this`pub, this`committed, this`left
      ensures status == Interrupted || status == Migrated
      ensures old(left) >= |Desired(env, old(storage), old(pub), generation)| + 3 ==> status == Migrated
      ensures MigrationKept(env, old(storage), old(pub), storage, pub, journal, inventory, committed, backups)
      ensures committed == old(committed) || (committed == Some(pub) && pub.meta.layout == PERIOD_LAYOUT)
      ensures status == Migrated ==>
        pub.meta.layout == PERIOD_LAYOUT && committed == Some(pub) && Projected(storage, pub)
    {
      hide *;
      ghost var s0, p0 := storage, pub;
      SourceMeans(env, storage, pub);
      var manifest := SourceManifest(storage, pub);
      var desired := Desired(env, storage, pub, generation);
      DesiredKeys(env, s0, p0, generation);
      UnderwayMeans(env, s0, p0, journal, generation, s0);
      status := CreateCopies(desired);
      StillUnderway(env, s0, p0, journal, generation, storage);
      UnderwayIsKept(env, s0, p0, journal, generation, storage, inventory, committed, backups);
      if status != Migrated {
        return;
      }
      status := Switch(env, manifest.reports, generation, s0);
    }

    /** From the moved records to the browser index. */
    method Switch(env: Env, reports: seq<Entry>, ghost generation: string, ghost s0: Storage) returns (status: Status)
      requires pub.meta.layout != PERIOD_LAYOUT && Underway(env, s0, pub, journal, generation, storage)
        && SourceOk(env, s0, pub)
      requires Copied(storage, Desired(env, s0, pub, generation), |Desired(env, s0, pub, generation)|)
      requires reports == SourceManifest(s0, pub).reports && inventory == Some(InventoryOf(env, s0, pub))
      requires Backups(env, s0, pub) <= backups
      modifies this`storage, this`pub, this`committed, this`left
      ensures status == Interrupted || status == Migrated
      ensures old(left) >= 3 ==> status == Migrated
      ensures MigrationKept(env, s0, old(pub), storage, pub, journal, inventory, committed, backups)
      ensures committed == old(committed) || (committed == Some(pub) && pub.meta.layout == PERIOD_LAYOUT)
      ensures status == Migrated ==>
        pub.meta.layout == PERIOD_LAYOUT && committed == Some(pub) && Projected(storage, pub)
    {
      ghost var p0 := pub;
      hide *;
      UnderwayIsKept(env, s0, p0, journal, generation, storage, inventory, committed, backups);
      MoveReady(env, s0, p0);
      var items := MoveItems(reports);
      var updated := Publication(items, MovedMeta(pub.meta, storage));
      MovedIs(p0, storage, items);
      MovedLayout(p0, storage);
      var saved := Save(updated, pub);
      if !saved {
        return Interrupted;
      }
      MovedIsKept(env, s0, p0, journal, generation, storage, inventory, committed, backups);
      MovedIndexable(env, s0, storage, p0, generation);
      var alive := Reach();
      if !alive {
        return Interrupted;
      }
      committed := Some(pub);
      MovedIsKept(env, s0, p0, journal, generation, storage, inventory, committed, backups);
      ghost var s1 := storage;
      var ok := UpdateSiteIndex(env);
      IndexKeeps(s1, storage);
      IndexIsKept(env, s0, p0, s1, storage, pub, journal, inventory, committed, backups);
      MovedLayout(p0, s1);
      status := if ok then Migrated else Interrupted;
    }

    /** migrate_publication_storage.migrate. Whatever the point at which it stops, every report
        still resolves to its bytes, nothing but the browser index has been overwritten, and
        the next start is accepted. */
    method Migrate(env: Env, newGeneration: string, apply: bool) returns (status: Status)
      requires newGeneration != ""
      modifies this
      ensures status == Refused <==> !Acceptable(env, old(storage), old(pub), old(journal), newGeneration)
      ensures status == Refused || status == Interrupted || status == Outcome(old(pub), apply)
      ensures old(left) >= Effects(old(pub)) ==> status != Interrupted
      ensures status == Refused ==> storage == old(storage) && pub == old(pub) && journal == old(journal)
      ensures status == Refused ==> inventory == old(inventory) && committed == old(committed)
      ensures Kept(old(storage), storage) && SameView(old(storage), old(pub), storage, pub)
      ensures pub == old(pub) || pub == Moved(old(pub), storage)
      ensures old(backups) <= backups && (committed == old(committed) || (committed == Some(pub) && pub != old(pub)))
      ensures inventory != old(inventory) || pub != old(pub) ==>
        SourceOk(env, old(storage), old(pub)) && inventory == Some(InventoryOf(env, old(storage), old(pub)))
        && Backups(env, old(storage), old(pub)) <= backups
      ensures old(journal).Some? ==> journal == old(journal)
      ensures old(pub).meta.layout != PERIOD_LAYOUT && journal == None ==> storage == old(storage) && pub == old(pub)
      ensures status != Refused && (journal.Some? || pub.meta.layout == PERIOD_LAYOUT) ==>
        forall g :: g != "" ==> Acceptable(env, storage, pub, journal, g)
      ensures status == Migrated ==>
        pub.meta.layout == PERIOD_LAYOUT && committed == Some(pub) && Projected(storage, pub)
      ensures status == AlreadyMigrated ==> pub.meta.layout == PERIOD_LAYOUT && (apply ==> Projected(storage, pub))
      ensures pub != old(pub) ==>
        (CanRollBack(env, storage, pub, inventory, committed, backups) <==> committed == Some(pub))
      ensures pub != old(pub) ==> inventory.Some? && inventory.value.original == old(pub)
      ensures old(pub).meta.layout == PERIOD_LAYOUT ==>
        pub == old(pub) && inventory == old(inventory) && committed == old(committed)
    {
      hide *;
      StartEffects(pub, apply);
      if pub.meta.layout == PERIOD_LAYOUT {
        AlreadyAcceptable(env, storage, pub, journal, newGeneration);
        status := FinishMigrated(env, apply);
        forall g ensures Acceptable(env, storage, pub, journal, g) <==> AlreadyOk(env, storage, pub) {
          AlreadyAcceptable(env, storage, pub, journal, g);
        }
        return;
      }
      AcceptableMeans(env, storage, pub, journal, newGeneration);
      NothingKept(storage, pub);
      if !SourceOk(env, storage, pub) {
        return Refused;
      }
      SourceMeans(env, storage, pub);
      var manifest := SourceManifest(storage, pub);
      if !JournalOk(env, pub, manifest, journal) {
        return Refused;
      }
      var generation := Generation(journal, newGeneration);
      var prepared := Prepared(manifest, generation);
      if !Compatible(storage, Desired(env, storage, pub, generation)) {
        return Refused;
      }
      ghost var j0 := journal;
      StartIsKept(env, storage, pub, j0, newGeneration);
      backups := backups + Backups(env, storage, pub);
      inventory := Some(InventoryOf(env, storage, pub));
      DesiredCount(env, storage, pub, generation);
      var alive := Reach();
      if !alive {
        return Interrupted;
      }
      journal := Some(if journal.Some? then journal.value else Journal(env.target, pub, prepared));
      JournalWritten(env, storage, pub, j0, journal, newGeneration);
      UnderwayIsKept(env, storage, pub, journal, generation, storage, inventory, committed, backups);
      KeptMeans(env, storage, pub, storage, pub, journal, inventory, committed, backups);
      alive := Reach();
      if !alive {
        return Interrupted;
      }
      if !apply {
        return DryRun;
      }
      ghost var s0, p0 := storage, pub;
      status := CopyAndSwitch(env, generation);
      KeptMeans(env, s0, p0, storage, pub, journal, inventory, committed, backups);
    }

    /** migrate_publication_storage.rollback. It restores exactly the recorded publication, or
        leaves everything as it is when the publication has advanced, when no commit was
        confirmed, or when an original object is no longer what it was. */
    method Rollback(env: Env) returns (status: Status)
      modifies this`storage, this`pub, this`left
      ensures inventory.Some? && Indexable(env, old(storage), inventory.value.original) && old(left) >= 3 ==>
        status == Refused || status == RolledBack
      ensures status == Refused <==> !CanRollBack(env, old(storage), old(pub), inventory, committed, backups)
      ensures status == Refused ==> storage == old(storage) && pub == old(pub)
      ensures Kept(old(storage), storage)
      ensures status == RolledBack || status == Interrupted || status == Refused
      ensures status != Refused ==>
        inventory.Some? && (pub == inventory.value.original || (pub == old(pub) && storage == old(storage)))
      ensures status == RolledBack ==> pub == inventory.value.original
      ensures status == RolledBack && pub.meta.manifestKey != SITE_INDEX ==> Projected(storage, pub)
    {
      if !CanRollBack(env, storage, pub, inventory, committed, backups) {
        return Refused;
      }
      hide OriginalIntact, Kept, Projected, Indexable;
      KeptRefl(storage);
      var original := inventory.value.original;
      if pub != original {
        var saved := Save(original, pub);
        if !saved {
          return Interrupted;
        }
      }
      var alive := Reach();
      if !alive {
        return Interrupted;
      }
      ghost var s0 := storage;
      var ok := UpdateSiteIndex(env);
      IndexKeeps(s0, storage);
      status := if ok then RolledBack else Interrupted;
    }

    /** Any number of starts of migrate, each with its own generation, each of which may die
        anywhere. A start is refused only while nothing has been changed, and one that survives
        long enough leaves the publication switched. */
    method MigrateRepeatedly(env: Env, starts: seq<Start>) returns (status: Status, ghost turn: Storage)
      requires pub.meta.layout != PERIOD_LAYOUT && journal == None && committed == None
      requires forall i :: 0 <= i < |starts| ==> starts[i].MigrateStart? && starts[i].generation != ""
      modifies this
      ensures starts != [] && starts[|starts| - 1].survives >= 2 * |old(pub).items| + 7 ==>
        Finished(starts[|starts| - 1], status, storage, pub)
      ensures RunsKept(env, old(storage), old(pub), turn, storage, pub, inventory, committed, backups)
      ensures Begun(env, old(storage), old(pub), storage, pub, journal)
      ensures status == Refused ==> storage == old(storage) && pub == old(pub) && journal == None
    {
      hide *;
      ghost var s0, p0 := storage, pub;
      ghost var enough := 2 * |pub.items| + 7;
      status, turn := Interrupted, storage;
      NothingRun(env, s0, p0, inventory, backups);
      for i := 0 to |starts|
        invariant RunsKept(env, s0, p0, turn, storage, pub, inventory, committed, backups)
        invariant Begun(env, s0, p0, storage, pub, journal)
        invariant status == Refused ==> storage == s0 && pub == p0 && journal == None
        invariant i > 0 && starts[i - 1].survives >= enough ==> Finished(starts[i - 1], status, storage, pub)
      {
        ghost var s, p, j := storage, pub, journal;
        left := starts[i].survives;
        status, turn := MigrateOnce(env, starts[i].generation, starts[i].apply, s0, p0, turn);
        MigrateFinished(starts[i], status, storage, pub);
        if status == Refused {
          BegunAccepts(env, s0, p0, s, p, j, starts[i].generation);
        } else {
          BegunStays(env, s0, p0, s, p, j, storage, pub, journal);
        }
      }
    }

    /** One start of migrate, seen as one of many that began with s0 and p0. */
    method MigrateOnce(env: Env, newGeneration: string, apply: bool, ghost s0: Storage, ghost p0: Publication,
                       ghost turn: Storage)
      returns (status: Status, ghost now: Storage)
      requires newGeneration != "" && p0.meta.layout != PERIOD_LAYOUT
      requires RunsKept(env, s0, p0, turn, storage, pub, inventory, committed, backups)
      modifies this
      ensures RunsKept(env, s0, p0, now, storage, pub, inventory, committed, backups)
      ensures status == Refused <==> !Acceptable(env, old(storage), old(pub), old(journal), newGeneration)
      ensures status == Refused ==> storage == old(storage) && pub == old(pub) && journal == old(journal)
      ensures old(left) >= 2 * |p0.items| + 7 ==> status != Interrupted
      ensures MigrateEnds(status, apply, storage, pub)
      ensures old(journal).Some? ==> journal == old(journal)
      ensures old(pub).meta.layout == PERIOD_LAYOUT ==> pub == old(pub)
      ensures old(pub).meta.layout != PERIOD_LAYOUT && journal == None ==> storage == old(storage) && pub == old(pub)
      ensures status != Refused && (journal.Some? || pub.meta.layout == PERIOD_LAYOUT) ==>
        forall g :: g != "" ==> Acceptable(env, storage, pub, journal, g)
    {
      hide *;
      ghost var s, p, inv, c, b := storage, pub, inventory, committed, backups;
      OldLayout(env, s0, p0, turn, s, p, inv, c, b);
      StartEffects(pub, apply);
      status := Migrate(env, newGeneration, apply);
      MigrateEndsSo(status, apply, storage, pub);
      if pub != p {
        MovedLayout(p0, storage);
        AcceptedIsAlreadyOk(env, p0, storage, journal);
        RunTurns(env, s0, p0, turn, s, storage, inv, c, committed, b, backups);
        now := s;
      } else if inventory != inv {
        RunRenews(env, s0, p0, turn, s, storage, inv, c, b, backups);
        now := s;
      } else {
        RunStays(env, s0, p0, turn, s, storage, p, inv, c, b, backups);
        now := turn;
      }
    }

    /** Any number of starts of migrate and of rollback in any order, each of which may die
        anywhere. Readers always see what they saw at first, and no object but the browser index
        is overwritten. A rollback is refused exactly when no switch has been confirmed, and a
        finished one restores the original records. A last start that survives long enough
        finishes unless it is refused. */
    method MigrateAndRollBack(env: Env, starts: seq<Start>) returns (status: Status)
      requires pub.meta.layout != PERIOD_LAYOUT && committed == None
      requires forall i :: 0 <= i < |starts| ==> starts[i].RollbackStart? || starts[i].generation != ""
      modifies this
      ensures Kept(old(storage), storage) && SameView(old(storage), old(pub), storage, pub)
      ensures pub == old(pub) || pub == Moved(old(pub), storage)
      ensures starts != [] && starts[|starts| - 1].RollbackStart? ==>
        (status == Refused <==> committed == None) && (status == RolledBack ==> pub == old(pub))
      ensures starts != [] && starts[|starts| - 1].survives >= 2 * |old(pub).items| + 7 ==>
        Finished(starts[|starts| - 1], status, storage, pub)
    {
      hide *;
      ghost var s0, p0, turn := storage, pub, storage;
      ghost var enough := 2 * |pub.items| + 7;
      status := Interrupted;
      NothingRun(env, s0, p0, inventory, backups);
      for i := 0 to |starts|
        invariant RunsKept(env, s0, p0, turn, storage, pub, inventory, committed, backups)
        invariant i > 0 && starts[i - 1].RollbackStart? ==>
            (status == Refused <==> committed == None) && (status == RolledBack ==> pub == p0)
        invariant i > 0 && starts[i - 1].survives >= enough ==> Finished(starts[i - 1], status, storage, pub)
      {
        left := starts[i].survives;
        match starts[i] {
          case MigrateStart(generation, apply, _) =>
            status, turn := MigrateOnce(env, generation, apply, s0, p0, turn);
            MigrateFinished(starts[i], status, storage, pub);
          case RollbackStart(_) =>
            ghost var s, p := storage, pub;
            RollsBackIff(env, s0, p0, turn, s, p, inventory, committed, backups);
            if committed.Some? {
              TurnIndexable(env, s0, p0, turn, s, p, inventory, committed, backups);
            }
            status := Rollback(env);
            RollbackFinished(starts[i], status, storage, pub);
            if status != Refused {
              RollbackStays(env, s0, p0, turn, s, storage, p, pub, inventory, committed, backups);
            }
        }
      }
      RunsKeep(env, s0, p0, turn, storage, pub, inventory, committed, backups);
    }
  }

  // ---- Many runs ------------------------------------------------------------------------------------

  /** One start of the tool, and how many effects its process survives. */
  datatype Start =
    | MigrateStart(generation: string, apply: bool, survives: nat)
    | RollbackStart(survives: nat)

  /** A finished start of migrate has switched the pointers and brought the browser index up to
      date, unless it was a dry run or was refused. */
  ghost predicate MigrateEnds(status: Status, apply: bool, s: Storage, p: Publication) {
    status in {Refused, Interrupted, Migrated, AlreadyMigrated, DryRun} && (status == DryRun ==> !apply)
    && (status == Migrated || (apply && status == AlreadyMigrated) ==>
          p.meta.layout == PERIOD_LAYOUT && Projected(s, p))
  }

  lemma MigrateEndsSo(status: Status, apply: bool, s: Storage, p: Publication)
    requires status in {Refused, Interrupted, Migrated, AlreadyMigrated, DryRun} && (status == DryRun ==> !apply)
    requires status == Migrated ==> p.meta.layout == PERIOD_LAYOUT && Projected(s, p)
    requires status == AlreadyMigrated ==> p.meta.layout == PERIOD_LAYOUT && (apply ==> Projected(s, p))
    ensures MigrateEnds(status, apply, s, p)
  {
    hide Projected;
  }

  /** The start was refused or did what it is for. */
  ghost predicate Finished(start: Start, status: Status, s: Storage, p: Publication) {
    match start
    case MigrateStart(_, apply, _) => status != Interrupted && MigrateEnds(status, apply, s, p)
    case RollbackStart(_) =>
      status == Refused || (status == RolledBack && (p.meta.manifestKey != SITE_INDEX ==> Projected(s, p)))
  }

  lemma MigrateFinished(start: Start, status: Status, s: Storage, p: Publication)
    requires start.MigrateStart? && MigrateEnds(status, start.apply, s, p)
    ensures status != Interrupted ==> Finished(start, status, s, p)
  {
    hide MigrateEnds;
  }

  lemma RollbackFinished(start: Start, status: Status, s: Storage, p: Publication)
    requires start.RollbackStart? && (status == RolledBack && p.meta.manifestKey != SITE_INDEX ==> Projected(s, p))
    ensures status == Refused || status == RolledBack ==> Finished(start, status, s, p)
  {
    hide Projected;
  }

  /** The browser index of the original publication can be written again. */
  lemma TurnIndexable(env: Env, s0: Storage, p0: Publication, turn: Storage, s: Storage, p: Publication,
                      inv: Option<Inventory>, committed: Option<Publication>, backups: set<Body>)
    requires RunsKept(env, s0, p0, turn, s, p, inv, committed, backups) && committed.Some?
    ensures inv.Some? && Indexable(env, s, inv.value.original)
  {
    hide Kept, SameView, Switched, SourceOk, InventoryOf;
    InventoryNames(env, turn, p0);
    SourceIndexable(env, turn, s, p0);
  }

  lemma SourceIndexable(env: Env, s: Storage, s': Storage, p: Publication)
    requires SourceOk(env, s, p) && Kept(s, s')
    ensures Indexable(env, s', p)
  {
    hide ManifestOk, CommittedOk, LegacyKey, AllowedKey;
    assert p.meta.manifestKey != SITE_INDEX;
  }

  /** The rollback material comes from a run that began with the objects `turn`. */
  ghost predicate Turned(env: Env, s0: Storage, p0: Publication, turn: Storage, s: Storage, inv: Option<Inventory>,
                         backups: set<Body>) {
    Kept(s0, turn) && SameView(s0, p0, turn, p0) && SourceOk(env, turn, p0) && Kept(turn, s)
    && inv == Some(InventoryOf(env, turn, p0)) && Backups(env, turn, p0) <= backups
  }

  /** The one publication that p0 can have been switched to. */
  ghost predicate Switched(env: Env, s: Storage, p0: Publication, p: Publication) {
    p == Moved(p0, s) && AlreadyOk(env, s, p)
  }

  /** What holds after any number of runs of migrate and rollback that began with s0 and p0. */
  ghost predicate RunsKept(env: Env, s0: Storage, p0: Publication, turn: Storage, s: Storage, p: Publication,
                           inv: Option<Inventory>, committed: Option<Publication>, backups: set<Body>) {
    Kept(s0, s) && SameView(s0, p0, s, p)
    && (p != p0 || committed.Some? ==> Turned(env, s0, p0, turn, s, inv, backups))
    && (p != p0 ==> Switched(env, s, p0, p)) && (committed.Some? ==> Switched(env, s, p0, committed.value))
  }

  /** Either nothing has been changed yet, or every later start of migrate is accepted. */
  ghost predicate Begun(env: Env, s0: Storage, p0: Publication, s: Storage, p: Publication, journal: Option<Journal>) {
    if journal == None && p.meta.layout != PERIOD_LAYOUT then s == s0 && p == p0
    else forall g :: g != "" ==> Acceptable(env, s, p, journal, g)
  }

  lemma NothingRun(env: Env, s: Storage, p: Publication, inv: Option<Inventory>, backups: set<Body>)
    requires p.meta.layout != PERIOD_LAYOUT
    ensures RunsKept(env, s, p, s, s, p, inv, None, backups) && Begun(env, s, p, s, p, None)
  {
    NothingKept(s, p);
    hide Kept, SameView;
  }

  lemma BegunStays(env: Env, s0: Storage, p0: Publication, s: Storage, p: Publication, journal: Option<Journal>,
                   s': Storage, p': Publication, journal': Option<Journal>)
    requires Begun(env, s0, p0, s, p, journal) && (journal.Some? ==> journal' == journal)
    requires p.meta.layout == PERIOD_LAYOUT ==> p' == p
    requires p.meta.layout != PERIOD_LAYOUT && journal' == None ==> s' == s && p' == p
    requires journal'.Some? || p'.meta.layout == PERIOD_LAYOUT ==>
      forall g :: g != "" ==> Acceptable(env, s', p', journal', g)
    ensures Begun(env, s0, p0, s', p', journal')
  {
    hide Acceptable;
  }

  lemma BegunAccepts(env: Env, s0: Storage, p0: Publication, s: Storage, p: Publication, journal: Option<Journal>,
                     g: string)
    requires Begun(env, s0, p0, s, p, journal) && g != "" && !Acceptable(env, s, p, journal, g)
    ensures s == s0 && p == p0 && journal == None && p.meta.layout != PERIOD_LAYOUT
  {
    hide Acceptable;
  }

  /** A publication in the old layout is the original one. */
  lemma OldLayout(env: Env, s0: Storage, p0: Publication, turn: Storage, s: Storage, p: Publication,
                  inv: Option<Inventory>, committed: Option<Publication>, backups: set<Body>)
    requires RunsKept(env, s0, p0, turn, s, p, inv, committed, backups)
    ensures p == p0 || (p.meta.layout == PERIOD_LAYOUT && p == Moved(p0, s))
  {
    MovedLayout(p0, s);
    hide Kept, SameView, Turned, AlreadyOk, Moved;
  }

  lemma SwitchedStays(env: Env, s: Storage, s': Storage, p0: Publication, p: Publication)
    requires Switched(env, s, p0, p) && Kept(s, s')
    ensures Switched(env, s', p0, p)
  {
    AlreadyStays(env, s, s', p);
    MovedSame(env, p0, s, s');
    hide AlreadyOk, Kept, Moved;
  }

  /** A run that leaves the pointers and the rollback material alone. */
  lemma RunStays(env: Env, s0: Storage, p0: Publication, turn: Storage, s: Storage, s': Storage, p: Publication,
                 inv: Option<Inventory>, committed: Option<Publication>, backups: set<Body>, backups': set<Body>)
    requires RunsKept(env, s0, p0, turn, s, p, inv, committed, backups) && backups <= backups'
    requires Kept(s, s') && SameView(s, p, s', p)
    ensures RunsKept(env, s0, p0, turn, s', p, inv, committed, backups')
  {
    hide Kept, SameView, SourceOk, InventoryOf, Backups, Switched;
    KeptTransitive(s0, s, s');
    ViewTransitive(s0, p0, s, p, s', p);
    if p != p0 || committed.Some? {
      KeptTransitive(turn, s, s');
    }
    BothSwitched(env, s, s', p0, p, committed);
  }

  lemma BothSwitched(env: Env, s: Storage, s': Storage, p0: Publication, p: Publication, committed: Option<Publication>)
    requires Kept(s, s') && (p != p0 ==> Switched(env, s, p0, p))
    requires committed.Some? ==> Switched(env, s, p0, committed.value)
    ensures p != p0 ==> Switched(env, s', p0, p)
    ensures committed.Some? ==> Switched(env, s', p0, committed.value)
  {
    hide Kept, Switched;
    if p != p0 {
      SwitchedStays(env, s, s', p0, p);
    }
    if committed.Some? {
      SwitchedStays(env, s, s', p0, committed.value);
    }
  }

  /** A run on the original publication that has taken its rollback material anew. */
  lemma RunRenews(env: Env, s0: Storage, p0: Publication, turn: Storage, s: Storage, s': Storage,
                  inv: Option<Inventory>, committed: Option<Publication>, backups: set<Body>, backups': set<Body>)
    requires RunsKept(env, s0, p0, turn, s, p0, inv, committed, backups)
    requires Kept(s, s') && SameView(s, p0, s', p0)
    requires SourceOk(env, s, p0) && Backups(env, s, p0) <= backups'
    ensures RunsKept(env, s0, p0, s, s', p0, Some(InventoryOf(env, s, p0)), committed, backups')
  {
    hide Kept, SameView, SourceOk, InventoryOf, Backups, Switched;
    KeptTransitive(s0, s, s');
    ViewTransitive(s0, p0, s, p0, s', p0);
    BothSwitched(env, s, s', p0, p0, committed);
  }

  /** The run that switches the pointers, and may record that it did. */
  lemma RunTurns(env: Env, s0: Storage, p0: Publication, turn: Storage, s: Storage, s': Storage,
                 inv: Option<Inventory>, committed: Option<Publication>, committed': Option<Publication>,
                 backups: set<Body>, backups': set<Body>)
    requires RunsKept(env, s0, p0, turn, s, p0, inv, committed, backups)
    requires Kept(s, s') && SameView(s, p0, s', Moved(p0, s')) && AlreadyOk(env, s', Moved(p0, s'))
    requires SourceOk(env, s, p0) && Backups(env, s, p0) <= backups'
    requires committed' == committed || committed' == Some(Moved(p0, s'))
    ensures RunsKept(env, s0, p0, s, s', Moved(p0, s'), Some(InventoryOf(env, s, p0)), committed', backups')
  {
    hide Kept, SameView, SourceOk, InventoryOf, Backups, AlreadyOk, Moved;
    KeptTransitive(s0, s, s');
    ViewTransitive(s0, p0, s, p0, s', Moved(p0, s'));
    assert Switched(env, s', p0, Moved(p0, s'));
    BothSwitched(env, s, s', p0, p0, committed);
  }

  /** A rollback goes ahead exactly when a switch was confirmed. */
  lemma RollsBackIff(env: Env, s0: Storage, p0: Publication, turn: Storage, s: Storage, p: Publication,
                     inv: Option<Inventory>, committed: Option<Publication>, backups: set<Body>)
    requires RunsKept(env, s0, p0, turn, s, p, inv, committed, backups)
    ensures CanRollBack(env, s, p, inv, committed, backups) <==> committed.Some?
    ensures committed.Some? ==> inv.Some? && inv.value.original == p0
  {
    if committed.Some? {
      InventoryNames(env, turn, p0);
      InventoryIntact(env, turn, s, p0, backups);
    }
    hide Kept, SameView, SourceOk, InventoryOf, Backups, OriginalIntact, AlreadyOk, Moved;
  }

  lemma RollbackStays(env: Env, s0: Storage, p0: Publication, turn: Storage, s: Storage, s': Storage, p: Publication,
                      p': Publication, inv: Option<Inventory>, committed: Option<Publication>, backups: set<Body>)
    requires RunsKept(env, s0, p0, turn, s, p, inv, committed, backups) && committed.Some?
    requires Kept(s, s') && (p' == p0 || (p' == p && s' == s))
    ensures RunsKept(env, s0, p0, turn, s', p', inv, committed, backups)
  {
    hide Kept, SameView, SourceOk, InventoryOf, Backups, Switched;
    KeptTransitive(s0, s, s');
    KeptTransitive(turn, s, s');
    SourceView(env, turn, s', p0);
    ViewTransitive(s0, p0, turn, p0, s', p0);
    BothSwitched(env, s, s', p0, p, committed);
  }

  lemma RunsKeep(env: Env, s0: Storage, p0: Publication, turn: Storage, s: Storage, p: Publication,
                 inv: Option<Inventory>, committed: Option<Publication>, backups: set<Body>)
    requires RunsKept(env, s0, p0, turn, s, p, inv, committed, backups)
    ensures Kept(s0, s) && SameView(s0, p0, s, p) && (p == p0 || p == Moved(p0, s))
  {
    hide Kept, SameView, Turned, AlreadyOk, Moved;
  }

  /** Migrated and rolled back: readers see what they saw before the migration, through the
      original pointers. */
  lemma RollbackRestoresView(env: Env, s0: Storage, p0: Publication, s1: Storage, s2: Storage)
    requires SourceOk(env, s0, p0) && Kept(s0, s1) && Kept(s1, s2)
    ensures SameView(s0, p0, s2, p0)
    ensures forall href :: href in p0.items && p0.items[href].entry.Some? ==> Resolve(s2, p0, href).Some?
  {
    hide SourceOk, Kept, SameView, Resolve;
    KeptTransitive(s0, s1, s2);
    SourceView(env, s0, s2, p0);
    forall href | href in p0.items && p0.items[href].entry.Some? ensures Resolve(s2, p0, href).Some? {
      PublishedResolves(env, s0, p0, href);
      ViewMeans(s0, p0, s2, p0, href);
    }
  }

  lemma ViewMeans(s: Storage, p: Publication, s': Storage, p': Publication, href: string)
    requires SameView(s, p, s', p') && Resolve(s, p, href).Some?
    ensures Resolve(s', p', href) == Resolve(s, p, href)
  {
    hide Resolve;
  }

  /** In an accepted source every published report can be read. */
  lemma PublishedResolves(env: Env, s: Storage, p: Publication, href: string)
    requires SourceOk(env, s, p) && href in p.items && p.items[href].entry.Some?
    ensures Resolve(s, p, href).Some?
  {
    hide LegacyKey, AllowedKey, PeriodKey;
    var i := PublishedAt(env, s, p, href);
    assert EntryCommitted(env, s, p.items, SourceManifest(s, p).reports[i]);
  }

  // ---- A migration that can no longer be rolled back -----------------------------------------------

  function ZeroHash(): string {
    seq(64, i => '0')
  }

  function ExampleEnv(): Env {
    Env("bucket", (body: Body) => ZeroHash())
  }

  /** A site without reports: its manifest and the browser index. */
  function ExampleStorage(): Storage {
    var manifest := Manifest("", None, []);
    map[ManifestKey() := Stored(ManifestText(manifest), "1"),
        SITE_INDEX := Stored(IndexText(IndexOf(ExamplePublication().meta, manifest)), "2")]
  }

  function ManifestKey(): string {
    "publication/manifests/" + ZeroHash() + ".json"
  }

  function ExamplePublication(): Publication {
    Publication(map[], Meta("bucket", "", ManifestKey(), "1", "", "", ""))
  }

  lemma ManifestKeyIsLegacy()
    ensures LegacyKey(ManifestKey()) && HashPart(ManifestKey()) == ZeroHash() && ManifestKey() != SITE_INDEX
    ensures "publication/manifests/" <= ManifestKey()
  {
    var key, directory := ManifestKey(), "publication/manifests/";
    assert |directory| == 22 && |key| == 91 && key[12] == 'm';
    assert key[..22] == directory && key[86..] == ".json" && key[22..86] == ZeroHash();
    assert HashNamed(key, directory, ".json");
    assert "publication/reports/"[12] == 'r';
  }

  lemma ExampleIsSource()
    ensures SourceOk(ExampleEnv(), ExampleStorage(), ExamplePublication())
  {
    ManifestKeyIsLegacy();
    IndexIsNotLegacy();
    hide LegacyKey, HashPart, ManifestKey, ZeroHash;
  }

  /** The process died between the switch and the record of it: the publication works and the
      next start takes it as migrated, but it cannot be rolled back, as it could if the switch had
      been recorded. Starting again never records it (Migrate leaves `committed` alone then). */
  lemma StrandedExample()
    ensures SourceOk(ExampleEnv(), ExampleStorage(), ExamplePublication())
    ensures var env, s0, p0 := ExampleEnv(), ExampleStorage(), ExamplePublication();
      var s := s0[REPORTS := Stored(ManifestText(Prepared(SourceManifest(s0, p0), "g")), "3")];
      var p, inv, backups := Moved(p0, s), Some(InventoryOf(env, s0, p0)), Backups(env, s0, p0);
      Kept(s0, s) && p != p0 && AlreadyOk(env, s, p)
      && !CanRollBack(env, s, p, inv, None, backups) && CanRollBack(env, s, p, inv, Some(p), backups)
  {
    ExampleIsSource();
    var env, s0, p0 := ExampleEnv(), ExampleStorage(), ExamplePublication();
    var s := s0[REPORTS := Stored(ManifestText(Prepared(SourceManifest(s0, p0), "g")), "3")];
    assert REPORTS !in s0 by {
      ManifestKeyIsLegacy();
      StableIsNotLegacy(REPORTS);
    }
    assert Desired(env, s0, p0, "g") == [Copy(REPORTS, ManifestText(Prepared(SourceManifest(s0, p0), "g")))];
    assert Copied(s, Desired(env, s0, p0, "g"), 1) && Kept(s0, s) && p0.meta.layout == "";
    hide *;
    MovedIsAlreadyOk(env, s0, s, p0, "g");
    MovedLayout(p0, s);
    InventoryIntact(env, s0, s, p0, Backups(env, s0, p0));
    ConfirmationDecides(env, s, Moved(p0, s), InventoryOf(env, s0, p0), Backups(env, s0, p0));
  }

  lemma ConfirmationDecides(env: Env, s: Storage, p: Publication, inv: Inventory, backups: set<Body>)
    requires OriginalIntact(env, s, inv, backups)
    ensures !CanRollBack(env, s, p, Some(inv), None, backups) && CanRollBack(env, s, p, Some(inv), Some(p), backups)
  {
    hide OriginalIntact;
  }
}
