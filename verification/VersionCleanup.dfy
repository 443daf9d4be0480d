/** The cleanup of old object versions: which versions are planned for deletion, and what a
    reader of the bucket sees while the plan is carried out beside a paused writer. */
module VersionCleanup {
  import opened Sorting
  import opened KeyOrder
  import opened PublicationKeys

  /** One version of an object, or a delete marker. */
  datatype Version = Version(id: string, etag: string, size: nat, marker: bool)

  /** A key's versions, newest first. */
  type Versions = seq<Version>
  type Store = map<string, Versions>

  const NULL := "null"

  /** A record of the version listing. */
  datatype Row = Row(key: string, id: string, etag: string, size: nat, marker: bool, latest: bool)
  /** A record of the listing of current objects. */
  datatype Object = Object(key: string, etag: string, size: nat)
  datatype Inventory = Inventory(objects: seq<Object>, versions: seq<Row>)

  // ---- Planning -------------------------------------------------------------------------------

  predicate Unreferenced(key: string, reachable: set<string>) {
    LegacyKey(key) && key !in reachable
  }

  /** The selection rule for one version record. */
  predicate Selected(row: Row, reachable: set<string>) {
    AllowedKey(row.key) && !(row.id == NULL && !LegacyKey(row.key))
    && (!row.latest || Unreferenced(row.key, reachable))
  }

  predicate IdLe(a: Row, b: Row) {
    if a.key != b.key then TextLe(a.key, b.key) else TextLe(a.id, b.id)
  }

  /** Object versions before delete markers, then by key and version. */
  predicate PlanLe(a: Row, b: Row) {
    if a.marker != b.marker then b.marker else IdLe(a, b)
  }

  lemma PlanLePreorder()
    ensures TotalPreorder(PlanLe)
  {
    hide TextLe;
    forall a, b ensures PlanLe(a, b) || PlanLe(b, a) {
      TextTotal(a.key, b.key);
      TextTotal(a.id, b.id);
    }
    forall a, b, c | PlanLe(a, b) && PlanLe(b, c) ensures PlanLe(a, c) {
      if a.marker == b.marker == c.marker {
        if a.key != b.key && b.key != c.key {
          TextTransitive(a.key, b.key, c.key);
          if a.key == c.key {
            TextAntisymmetric(a.key, b.key);
          }
        } else if a.key == b.key == c.key {
          TextTransitive(a.id, b.id, c.id);
        }
      }
    }
  }

  /** The current object is the latest version of its key. */
  ghost predicate Matched(inv: Inventory, o: Object) {
    exists r :: r in inv.versions && r.latest && r.key == o.key && !r.marker && r.etag == o.etag && r.size == o.size
  }

  /** Both listings tell the same story, and every reachable object is there. */
  ghost predicate Agrees(inv: Inventory, reachable: set<string>) {
    (forall i, j :: 0 <= i < j < |inv.versions| && inv.versions[i].latest && inv.versions[j].latest ==>
       inv.versions[i].key != inv.versions[j].key)
    && (forall o :: o in inv.objects ==> Matched(inv, o))
    && (forall r :: r in inv.versions && r.latest && !r.marker ==> exists o :: o in inv.objects && o.key == r.key)
    && forall k :: k in reachable ==> exists o :: o in inv.objects && o.key == k
  }

  datatype Plan = Refused | Planned(deletions: seq<Row>)

  function Picked(rows: seq<Row>, reachable: set<string>): (picked: seq<Row>)
    ensures forall r :: r in picked <==> r in rows && Selected(r, reachable)
  {
    if rows == [] then []
    else
      assert rows == rows[..|rows| - 1] + [rows[|rows| - 1]];
      var last := rows[|rows| - 1];
      Picked(rows[..|rows| - 1], reachable) + if Selected(last, reachable) then [last] else []
  }

  function PlanOf(inv: Inventory, reachable: set<string>): seq<Row> {
    Sort(PlanLe, Picked(inv.versions, reachable))
  }

  /** The loop of candidates that collects the latest version of each key. */
  method LatestRows(rows: seq<Row>) returns (ambiguous: bool, latest: map<string, Row>)
    ensures ambiguous
      <==> exists i, j :: 0 <= i < j < |rows| && rows[i].latest && rows[j].latest && rows[i].key == rows[j].key
    ensures !ambiguous ==> forall k :: k in latest <==> exists r :: r in rows && r.latest && r.key == k
    ensures !ambiguous ==> forall k :: k in latest ==> latest[k] in rows && latest[k].latest && latest[k].key == k
  {
    latest := map[];
    for n := 0 to |rows|
      invariant forall i, j :: 0 <= i < j < n && rows[i].latest && rows[j].latest ==> rows[i].key != rows[j].key
      invariant forall i :: 0 <= i < n && rows[i].latest ==> rows[i].key in latest
      invariant forall k :: k in latest ==>
        exists i :: 0 <= i < n && rows[i] == latest[k] && rows[i].latest && rows[i].key == k
    {
      var row := rows[n];
      if row.latest {
        if row.key in latest {
          ghost var i :| 0 <= i < n && rows[i] == latest[row.key] && rows[i].latest && rows[i].key == row.key;
          return true, latest;
        }
        latest := latest[row.key := row];
      }
    }
    return false, latest;
  }

  /** cleanup_publication_storage.candidates. */
  method Candidates(inv: Inventory, reachable: set<string>) returns (plan: Plan)
    ensures plan.Planned? <==> Agrees(inv, reachable)
    ensures plan.Planned? ==> plan.deletions == PlanOf(inv, reachable)
  {
    hide *;
    var ambiguous, latest := LatestRows(inv.versions);
    if ambiguous {
      AmbiguousDisagrees(inv, reachable);
      return Refused;
    }
    var agrees := ListingsAgree(inv, latest, reachable);
    if !agrees {
      return Refused;
    }
    var result := PickRows(inv.versions, reachable);
    PlanIs(inv, reachable);
    return Planned(Sort(PlanLe, result));
  }

  lemma AmbiguousDisagrees(inv: Inventory, reachable: set<string>)
    requires exists i, j :: 0 <= i < j < |inv.versions| && inv.versions[i].latest && inv.versions[j].latest
                            && inv.versions[i].key == inv.versions[j].key
    ensures !Agrees(inv, reachable)
  {
  }

  lemma PlanIs(inv: Inventory, reachable: set<string>)
    ensures PlanOf(inv, reachable) == Sort(PlanLe, Picked(inv.versions, reachable))
  {
  }

  /** The checks of candidates on current objects, latest versions and reachable keys. */
  method ListingsAgree(inv: Inventory, latest: map<string, Row>, reachable: set<string>) returns (agrees: bool)
    requires forall i, j :: 0 <= i < j < |inv.versions| && inv.versions[i].latest && inv.versions[j].latest ==>
      inv.versions[i].key != inv.versions[j].key
    requires forall k :: k in latest <==> exists r :: r in inv.versions && r.latest && r.key == k
    requires forall k :: k in latest ==> latest[k] in inv.versions && latest[k].latest && latest[k].key == k
    ensures agrees <==> Agrees(inv, reachable)
  {
    var objects := set o | o in inv.objects :: o.key;
    for n := 0 to |inv.objects|
      invariant forall i :: 0 <= i < n ==> Matched(inv, inv.objects[i])
    {
      var o := inv.objects[n];
      if o.key !in latest || latest[o.key].marker || latest[o.key].etag != o.etag || latest[o.key].size != o.size {
        OneLatest(inv.versions, latest, o);
        assert o in inv.objects && !Matched(inv, o);
        return false;
      }
      assert latest[o.key] in inv.versions;
    }
    forall r | r in inv.versions && r.latest ensures r.key in latest && latest[r.key] == r {
      SameLatest(inv.versions, latest, r);
    }
    hide Matched;
    assert forall o :: o in inv.objects ==> Matched(inv, o);
    agrees := (forall k :: k in latest && !latest[k].marker ==> k in objects)
      && forall k :: k in reachable ==> k in objects;
    AgreesMeans(inv, latest, reachable, objects);
  }

  lemma AgreesMeans(inv: Inventory, latest: map<string, Row>, reachable: set<string>, objects: set<string>)
    requires forall i, j :: 0 <= i < j < |inv.versions| && inv.versions[i].latest && inv.versions[j].latest ==>
      inv.versions[i].key != inv.versions[j].key
    requires forall k :: k in latest ==> latest[k] in inv.versions && latest[k].latest && latest[k].key == k
    requires forall r :: r in inv.versions && r.latest ==> r.key in latest && latest[r.key] == r
    requires objects == set o | o in inv.objects :: o.key
    requires forall o :: o in inv.objects ==> Matched(inv, o)
    ensures Agrees(inv, reachable) <==>
      (forall k :: k in latest && !latest[k].marker ==> k in objects) && forall k :: k in reachable ==> k in objects
  {
  }

  /** The loop of candidates that picks the versions to delete. */
  method PickRows(rows: seq<Row>, reachable: set<string>) returns (result: seq<Row>)
    ensures result == Picked(rows, reachable)
  {
    hide LegacyKey, AllowedKey;
    result := [];
    for n := 0 to |rows|
      invariant result == Picked(rows[..n], reachable)
    {
      assert rows[..n + 1][..n] == rows[..n];
      var row := rows[n];
      if AllowedKey(row.key) && !(row.id == NULL && !LegacyKey(row.key)) {
        if row.marker {
          if Unreferenced(row.key, reachable) || !row.latest {
            result := result + [row];
          }
        } else if !row.latest || Unreferenced(row.key, reachable) {
          result := result + [row];
        }
      }
    }
    assert rows[..|rows|] == rows;
  }

  lemma SameLatest(rows: seq<Row>, latest: map<string, Row>, r: Row)
    requires forall i, j :: 0 <= i < j < |rows| && rows[i].latest && rows[j].latest ==> rows[i].key != rows[j].key
    requires r in rows && r.latest && r.key in latest && latest[r.key] in rows && latest[r.key].latest
      && latest[r.key].key == r.key
    ensures latest[r.key] == r
  {
    var i :| 0 <= i < |rows| && rows[i] == r;
    var j :| 0 <= j < |rows| && rows[j] == latest[r.key];
  }

  lemma OneLatest(rows: seq<Row>, latest: map<string, Row>, o: Object)
    requires forall i, j :: 0 <= i < j < |rows| && rows[i].latest && rows[j].latest ==> rows[i].key != rows[j].key
    requires forall k :: k in latest <==> exists r :: r in rows && r.latest && r.key == k
    requires forall k :: k in latest ==> latest[k] in rows && latest[k].latest && latest[k].key == k
    requires o.key !in latest || latest[o.key].marker || latest[o.key].etag != o.etag || latest[o.key].size != o.size
    ensures !exists r :: r in rows && r.latest && r.key == o.key && !r.marker && r.etag == o.etag && r.size == o.size
  {
    forall r | r in rows && r.latest && r.key == o.key ensures r.marker || r.etag != o.etag || r.size != o.size {
      SameLatest(rows, latest, r);
    }
  }

  // ---- The bucket -----------------------------------------------------------------------------

  function VersionsOf(store: Store, key: string): Versions {
    if key in store then store[key] else []
  }

  /** The versions whose identifier is not in gone. */
  function Kept(list: Versions, gone: set<string>): (kept: Versions)
    ensures forall v :: v in kept <==> v in list && v.id !in gone
  {
    if list == [] then []
    else
      assert list == [list[0]] + list[1..];
      (if list[0].id in gone then [] else [list[0]]) + Kept(list[1..], gone)
  }

  /** DELETE of one exact version. */
  function Deleted(store: Store, key: string, id: string): Store {
    if key in store then store[key := Kept(store[key], {id})] else store
  }

  /** PUT of a version, or of a marker by an unqualified DELETE. Where versioning is suspended
      the identifier is null and the previous null version is replaced. */
  function Stacked(list: Versions, v: Version): Versions {
    [v] + if v.id == NULL then Kept(list, {NULL}) else list
  }

  function Stored(store: Store, key: string, v: Version): Store {
    store[key := Stacked(VersionsOf(store, key), v)]
  }

  /** What a reader gets who names no version; nothing if the newest version is a marker. */
  predicate Hidden(list: Versions) {
    list == [] || list[0].marker
  }

  ghost predicate Distinct(list: Versions) {
    forall i, j :: 0 <= i < j < |list| ==> list[i].id != list[j].id
  }

  ghost predicate WellFormed(store: Store) {
    forall k :: k in store ==> Distinct(store[k])
  }

  /** What happens to the bucket: the cleanup deletes its next version, or a writer stores one. */
  datatype Event = Deletion | Put(key: string, version: Version)

  function Gone(plan: seq<Row>, n: nat, key: string): set<string>
    requires n <= |plan|
  {
    set i | 0 <= i < n && plan[i].key == key :: plan[i].id
  }

  function Deletions(events: seq<Event>): nat {
    if events == [] then 0 else Deletions(events[..|events| - 1]) + if events[|events| - 1].Deletion? then 1 else 0
  }

  /** The bucket after the events. */
  function Run(store: Store, plan: seq<Row>, events: seq<Event>): Store
    requires Deletions(events) <= |plan|
  {
    if events == [] then store
    else
      var front := events[..|events| - 1];
      match events[|events| - 1]
      case Deletion => Deleted(Run(store, plan, front), plan[Deletions(front)].key, plan[Deletions(front)].id)
      case Put(key, v) => Stored(Run(store, plan, front), key, v)
  }

  /** The bucket after the same events with every deletion left out. */
  function Undisturbed(store: Store, events: seq<Event>): Store {
    if events == [] then store
    else
      var before := Undisturbed(store, events[..|events| - 1]);
      match events[|events| - 1]
      case Deletion => before
      case Put(key, v) => Stored(before, key, v)
  }

  /** Writers use the stable layout only, and a version identifier other than null is new. */
  ghost predicate WritersFresh(store: Store, events: seq<Event>) {
    forall e :: e in events && e.Put? ==>
      !LegacyKey(e.key) && (e.version.id != NULL ==> forall v :: v in VersionsOf(store, e.key) ==> v.id != e.version.id)
  }

  function RowOf(key: string, v: Version, latest: bool): Row {
    Row(key, v.id, v.etag, v.size, v.marker, latest)
  }

  /** The two listings of a bucket, in any order. */
  ghost predicate Lists(inv: Inventory, store: Store) {
    (forall r :: r in inv.versions ==>
       r.key in store && exists i :: 0 <= i < |store[r.key]| && r == RowOf(r.key, store[r.key][i], i == 0))
    && (forall k, i :: k in store && 0 <= i < |store[k]| ==> RowOf(k, store[k][i], i == 0) in inv.versions)
    && (forall i, j :: 0 <= i < j < |inv.versions| ==> inv.versions[i] != inv.versions[j])
    && (forall o :: o in inv.objects ==>
          o.key in store && !Hidden(store[o.key]) && store[o.key][0].etag == o.etag && store[o.key][0].size == o.size)
    && forall k :: k in store && !Hidden(store[k]) ==> exists o :: o in inv.objects && o.key == k
  }

  // ---- What the plan contains -----------------------------------------------------------------

  lemma PlanMembers(inv: Inventory, reachable: set<string>)
    ensures forall r :: r in PlanOf(inv, reachable) <==> r in inv.versions && Selected(r, reachable)
    ensures SortedBy(PlanLe, PlanOf(inv, reachable))
  {
    hide Selected, Sort, SortedBy, PlanLe;
    SortMembers(PlanLe, Picked(inv.versions, reachable));
    PlanLePreorder();
    SortSorted(PlanLe, Picked(inv.versions, reachable));
  }

  /** A listing of a bucket is consistent; only a reachable key without a current object stops
      the plan. */
  lemma ListingAgrees(inv: Inventory, store: Store, reachable: set<string>)
    requires WellFormed(store) && Lists(inv, store)
    ensures Agrees(inv, reachable) <==> forall k :: k in reachable ==> k in store && !Hidden(store[k])
  {
    forall i, j | 0 <= i < j < |inv.versions| && inv.versions[i].latest && inv.versions[j].latest
      ensures inv.versions[i].key != inv.versions[j].key
    {
      assert inv.versions[i] in inv.versions && inv.versions[j] in inv.versions;
    }
    forall o | o in inv.objects
      ensures Matched(inv, o)
    {
      assert RowOf(o.key, store[o.key][0], true) in inv.versions;
    }
    forall r | r in inv.versions && r.latest && !r.marker ensures exists o :: o in inv.objects && o.key == r.key {
      assert !Hidden(store[r.key]);
    }
  }

  /** What may be planned for a key that is reachable or not a legacy key: never its newest
      version, and never a null version of a stable key. */
  ghost predicate Harmless(plan: seq<Row>, key: string, list: Versions) {
    forall r :: r in plan && r.key == key ==>
      (list != [] ==> r.id != list[0].id) && (!LegacyKey(key) ==> r.id != NULL) && exists v :: v in list && v.id == r.id
  }

  lemma PlanIsHarmless(inv: Inventory, store: Store, reachable: set<string>, key: string)
    requires WellFormed(store) && Lists(inv, store) && (key in reachable || !LegacyKey(key))
    ensures Harmless(PlanOf(inv, reachable), key, VersionsOf(store, key))
  {
    hide LegacyKey, AllowedKey, PlanOf;
    PlanMembers(inv, reachable);
    forall r | r in PlanOf(inv, reachable) && r.key == key
      ensures VersionsOf(store, key) != [] ==> r.id != VersionsOf(store, key)[0].id
      ensures !LegacyKey(key) ==> r.id != NULL
      ensures exists v :: v in VersionsOf(store, key) && v.id == r.id
    {
      var i :| 0 <= i < |store[key]| && r == RowOf(key, store[key][i], i == 0);
      assert store[key][i] in VersionsOf(store, key) && i > 0;
    }
  }

  // ---- Keys that are reachable or not legacy -------------------------------------------------

  lemma KeptCons(v: Version, list: Versions, gone: set<string>)
    ensures Kept([v] + list, gone) == if v.id in gone then Kept(list, gone) else [v] + Kept(list, gone)
  {
    assert ([v] + list)[1..] == list;
  }

  lemma {:induction false} KeptTwice(list: Versions, gone: set<string>, id: string)
    ensures Kept(Kept(list, gone), {id}) == Kept(list, gone + {id})
  {
    if list != [] {
      assert list == [list[0]] + list[1..];
      KeptTwice(list[1..], gone, id);
      KeptCons(list[0], list[1..], gone);
      KeptCons(list[0], list[1..], gone + {id});
      KeptCons(list[0], Kept(list[1..], gone), {id});
    }
  }

  lemma {:induction false} KeptHead(list: Versions, gone: set<string>)
    requires list != [] && list[0].id !in gone
    ensures Kept(list, gone) != [] && Kept(list, gone)[0] == list[0]
  {
  }

  lemma {:induction false} KeptCommutes(list: Versions, a: set<string>, b: set<string>)
    ensures Kept(Kept(list, a), b) == Kept(Kept(list, b), a)
  {
    if list != [] {
      KeptCommutes(list[1..], a, b);
      var v, rest := list[0], list[1..];
      assert list == [v] + rest;
      KeptCons(v, rest, a);
      KeptCons(v, rest, b);
      KeptCons(v, Kept(rest, a), b);
      KeptCons(v, Kept(rest, b), a);
      hide Kept;
    }
  }

  lemma StackedKeeps(list: Versions, v: Version, gone: set<string>)
    requires v.id !in gone
    ensures Kept(Stacked(list, v), gone) == Stacked(Kept(list, gone), v)
  {
    KeptCons(v, if v.id == NULL then Kept(list, {NULL}) else list, gone);
    KeptCommutes(list, {NULL}, gone);
    hide Kept;
  }

  /** The disturbed list is the undisturbed one without the versions deleted so far, and none
      of the planned versions is ever its newest. */
  ghost predicate Mirrors(store: Store, plan: seq<Row>, events: seq<Event>, key: string)
    requires Deletions(events) <= |plan|
  {
    var without := VersionsOf(Undisturbed(store, events), key);
    VersionsOf(Run(store, plan, events), key) == Kept(without, Gone(plan, Deletions(events), key))
    && forall r :: r in plan && r.key == key && without != [] ==> r.id != without[0].id
  }

  lemma {:induction false} RunMirrors(store: Store, plan: seq<Row>, events: seq<Event>, key: string)
    requires Deletions(events) <= |plan| && WritersFresh(store, events)
    requires Harmless(plan, key, VersionsOf(store, key))
    ensures Mirrors(store, plan, events, key)
  {
    hide LegacyKey;
    if events == [] {
      KeptAll(VersionsOf(store, key), Gone(plan, 0, key));
    } else {
      var front, last := events[..|events| - 1], events[|events| - 1];
      assert events == front + [last];
      RunMirrors(store, plan, front, key);
      match last {
        case Deletion => DeletionMirrors(store, plan, events, key);
        case Put(k, v) => PutMirrors(store, plan, events, key);
      }
    }
  }

  lemma {:induction false} DeletionMirrors(store: Store, plan: seq<Row>, events: seq<Event>, key: string)
    requires Deletions(events) <= |plan| && events != [] && events[|events| - 1] == Deletion
    requires Mirrors(store, plan, events[..|events| - 1], key)
    ensures Mirrors(store, plan, events, key)
  {
    hide Kept, Gone, VersionsOf, Deleted;
    var front := events[..|events| - 1];
    var n := Deletions(front);
    DeletionKeeps(Run(store, plan, front), VersionsOf(Undisturbed(store, front), key), plan, n, key);
  }

  /** One more deletion takes one more version out of the list. */
  lemma DeletionKeeps(now: Store, without: Versions, plan: seq<Row>, n: nat, key: string)
    requires n < |plan| && VersionsOf(now, key) == Kept(without, Gone(plan, n, key))
    ensures VersionsOf(Deleted(now, plan[n].key, plan[n].id), key) == Kept(without, Gone(plan, n + 1, key))
  {
    hide Kept;
    OneMoreGone(plan, n, key);
    hide Gone;
    if plan[n].key == key {
      KeptTwice(without, Gone(plan, n, key), plan[n].id);
      NothingKept({plan[n].id});
    }
  }

  lemma NothingKept(gone: set<string>)
    ensures Kept([], gone) == []
  {
  }

  lemma PutMirrors(store: Store, plan: seq<Row>, events: seq<Event>, key: string)
    requires Deletions(events) <= |plan| && events != [] && events[|events| - 1].Put?
    requires WritersFresh(store, events) && Harmless(plan, key, VersionsOf(store, key))
    requires Mirrors(store, plan, events[..|events| - 1], key)
    ensures Mirrors(store, plan, events, key)
  {
    hide Kept, Gone, LegacyKey, Stacked;
    var front, last := events[..|events| - 1], events[|events| - 1];
    assert last in events;
    if last.key == key {
      NotPlanned(store, plan, events, key, last.version);
      GoneIsPlanned(plan, Deletions(front), key);
      StackedKeeps(VersionsOf(Undisturbed(store, front), key), last.version, Gone(plan, Deletions(front), key));
      hide WritersFresh, Harmless;
      StackedHead(VersionsOf(Undisturbed(store, front), key), last.version);
    }
  }

  lemma StackedHead(list: Versions, v: Version)
    ensures Stacked(list, v) != [] && Stacked(list, v)[0] == v
  {
  }

  lemma GoneIsPlanned(plan: seq<Row>, n: nat, key: string)
    requires n <= |plan|
    ensures forall id :: id in Gone(plan, n, key) ==> exists r :: r in plan && r.key == key && r.id == id
  {
  }

  lemma {:induction false} KeptAll(list: Versions, gone: set<string>)
    requires gone == {}
    ensures Kept(list, gone) == list
  {
    if list != [] {
      KeptAll(list[1..], gone);
    }
  }

  lemma OneMoreGone(plan: seq<Row>, n: nat, key: string)
    requires n < |plan|
    ensures Gone(plan, n + 1, key) == if plan[n].key == key then Gone(plan, n, key) + {plan[n].id}
      else Gone(plan, n, key)
  {
    forall id
      ensures id in Gone(plan, n + 1, key) <==> id in Gone(plan, n, key) || (plan[n].key == key && id == plan[n].id)
    {
    }
  }

  lemma NotPlanned(store: Store, plan: seq<Row>, events: seq<Event>, key: string, v: Version)
    requires Put(key, v) in events && WritersFresh(store, events) && Harmless(plan, key, VersionsOf(store, key))
    ensures forall r :: r in plan && r.key == key ==> r.id != v.id
  {
    var e := Put(key, v);
    assert e in events && e.Put?;
  }

  /** At every point of the cleanup, with any writers in between, a key that is reachable or
      not a legacy key shows exactly what it would show had nothing been deleted. */
  lemma CurrentObjectUnchanged(inv: Inventory, store: Store, reachable: set<string>, events: seq<Event>, key: string)
    requires WellFormed(store) && Lists(inv, store) && (key in reachable || !LegacyKey(key))
    requires Deletions(events) <= |PlanOf(inv, reachable)| && WritersFresh(store, events)
    ensures var with := VersionsOf(Run(store, PlanOf(inv, reachable), events), key);
      var without := VersionsOf(Undisturbed(store, events), key);
      (with == [] <==> without == []) && (with != [] ==> with[0] == without[0])
  {
    hide LegacyKey, PlanOf, WellFormed, Lists, WritersFresh;
    var plan := PlanOf(inv, reachable);
    PlanIsHarmless(inv, store, reachable, key);
    RunMirrors(store, plan, events, key);
    var without := VersionsOf(Undisturbed(store, events), key);
    GoneIsPlanned(plan, Deletions(events), key);
    if without != [] {
      KeptHead(without, Gone(plan, Deletions(events), key));
    }
  }

  // ---- Hidden keys stay hidden ----------------------------------------------------------------

  /** No writer touches a legacy key: what is left of it is what the plan has not deleted yet. */
  lemma {:induction false} LegacyMirrors(store: Store, plan: seq<Row>, events: seq<Event>, key: string)
    requires Deletions(events) <= |plan| && WritersFresh(store, events) && LegacyKey(key)
    ensures VersionsOf(Run(store, plan, events), key)
      == Kept(VersionsOf(store, key), Gone(plan, Deletions(events), key))
  {
    hide LegacyKey, Stacked;
    if events == [] {
      KeptAll(VersionsOf(store, key), Gone(plan, 0, key));
    } else {
      hide Kept, Gone, VersionsOf, Stored, Deleted;
      var front, last := events[..|events| - 1], events[|events| - 1];
      assert events == front + [last] && last in events;
      LegacyMirrors(store, plan, front, key);
      match last {
        case Deletion => LegacyDeletion(store, plan, front, key);
        case Put(k, v) => OtherKeyStored(Run(store, plan, front), k, v, key);
      }
    }
  }

  lemma OtherKeyStored(store: Store, k: string, v: Version, key: string)
    requires k != key
    ensures VersionsOf(Stored(store, k, v), key) == VersionsOf(store, key)
  {
  }

  lemma LegacyDeletion(store: Store, plan: seq<Row>, front: seq<Event>, key: string)
    requires Deletions(front) < |plan|
    requires VersionsOf(Run(store, plan, front), key) == Kept(VersionsOf(store, key), Gone(plan, Deletions(front), key))
    ensures var row := plan[Deletions(front)];
      VersionsOf(Deleted(Run(store, plan, front), row.key, row.id), key)
      == Kept(VersionsOf(store, key), Gone(plan, Deletions(front) + 1, key))
  {
    hide Kept, Gone, VersionsOf, Deleted, Run;
    DeletionKeeps(Run(store, plan, front), VersionsOf(store, key), plan, Deletions(front), key);
  }

  /** Versions are taken away in an order in which a marker goes only when nothing is left that
      it hides. */
  lemma {:induction false} HiddenUnderKept(list: Versions, a: set<string>, b: set<string>)
    requires a <= b && Hidden(Kept(list, a))
    requires (forall v :: v in list && v.marker ==> v.id !in b) || (forall v :: v in list && !v.marker ==> v.id in b)
    ensures Hidden(Kept(list, b))
  {
    if forall v :: v in list && !v.marker ==> v.id in b {
      assert forall v :: v in Kept(list, b) ==> v.marker;
      assert Kept(list, b) != [] ==> Kept(list, b)[0] in Kept(list, b);
    } else if list != [] && list[0].id in b {
      HiddenUnderKept(list[1..], a, b);
    }
  }

  /** Once a marker has been deleted, so has every object version of the plan. */
  lemma ObjectsGoFirst(plan: seq<Row>, n: nat, m: nat, key: string, v: Version, row: Row)
    requires SortedBy(PlanLe, plan) && m < n <= |plan| && plan[m].marker
    requires row in plan && !row.marker && row.key == key && row.id == v.id
    ensures v.id in Gone(plan, n, key)
  {
    var i :| 0 <= i < |plan| && plan[i] == row;
    assert i > m ==> PlanLe(plan[m], plan[i]);
  }

  /** Every version of an unreferenced key is planned. */
  lemma AllPlanned(inv: Inventory, store: Store, reachable: set<string>, key: string, v: Version) returns (row: Row)
    requires Lists(inv, store) && Unreferenced(key, reachable) && v in VersionsOf(store, key)
    ensures row in PlanOf(inv, reachable) && row.key == key && row.id == v.id && row.marker == v.marker
  {
    hide PlanOf, LegacyKey, AllowedKey;
    PlanMembers(inv, reachable);
    LegacyIsAllowed(key);
    var p :| 0 <= p < |store[key]| && store[key][p] == v;
    row := RowOf(key, v, p == 0);
    assert row in inv.versions;
  }

  lemma MarkerPlanned(inv: Inventory, store: Store, reachable: set<string>, key: string, u: Version, row: Row)
    requires WellFormed(store) && Lists(inv, store) && u in VersionsOf(store, key)
    requires row in PlanOf(inv, reachable) && row.key == key && row.id == u.id
    ensures row.marker == u.marker
  {
    hide PlanOf, LegacyKey, AllowedKey, Selected;
    PlanMembers(inv, reachable);
    var q := PlannedVersion(inv, store, row);
    var p :| 0 <= p < |store[key]| && store[key][p] == u;
    DistinctAt(store, key, p, q);
    hide *;
  }

  lemma DistinctAt(store: Store, key: string, p: nat, q: nat)
    requires WellFormed(store) && key in store && p < |store[key]| && q < |store[key]|
    requires store[key][p].id == store[key][q].id
    ensures p == q
  {
    assert Distinct(store[key]);
  }

  /** While a marker of an unreferenced key has been deleted, so have all its objects. */
  lemma MarkersGoLast(inv: Inventory, store: Store, reachable: set<string>, n: nat, key: string)
    requires WellFormed(store) && Lists(inv, store) && Unreferenced(key, reachable)
    requires n <= |PlanOf(inv, reachable)|
    ensures var gone := Gone(PlanOf(inv, reachable), n, key);
      (forall v :: v in VersionsOf(store, key) && v.marker ==> v.id !in gone)
      || (forall v :: v in VersionsOf(store, key) && !v.marker ==> v.id in gone)
  {
    hide PlanOf, Unreferenced, AllowedKey, WellFormed, Lists, SortedBy, PlanLe;
    var plan := PlanOf(inv, reachable);
    PlanMembers(inv, reachable);
    var gone := Gone(plan, n, key);
    var list := VersionsOf(store, key);
    if u :| u in list && u.marker && u.id in gone {
      var m :| 0 <= m < n && plan[m].key == key && plan[m].id == u.id;
      MarkerPlanned(inv, store, reachable, key, u, plan[m]);
      forall v | v in list && !v.marker ensures v.id in gone {
        var row := AllPlanned(inv, store, reachable, key, v);
        ObjectsGoFirst(plan, n, m, key, v, row);
      }
    }
  }

  lemma LegacyIsAllowed(key: string)
    requires LegacyKey(key)
    ensures AllowedKey(key)
  {
  }

  lemma PlannedVersion(inv: Inventory, store: Store, row: Row) returns (i: nat)
    requires Lists(inv, store) && row in inv.versions
    ensures i < |VersionsOf(store, row.key)| && row == RowOf(row.key, VersionsOf(store, row.key)[i], i == 0)
  {
    i :| 0 <= i < |store[row.key]| && row == RowOf(row.key, store[row.key][i], i == 0);
  }

  lemma {:induction false} DeletionsGrow(events: seq<Event>, p: nat)
    requires p <= |events|
    ensures Deletions(events[..p]) <= Deletions(events)
  {
    if p < |events| {
      DeletionsGrow(events[..|events| - 1], p);
      assert events[..|events| - 1][..p] == events[..p];
    } else {
      assert events[..p] == events;
    }
  }

  lemma {:induction false} UndisturbedStays(store: Store, events: seq<Event>, p: nat, key: string)
    requires p <= |events| && forall i :: p <= i < |events| && events[i].Put? ==> events[i].key != key
    ensures VersionsOf(Undisturbed(store, events), key) == VersionsOf(Undisturbed(store, events[..p]), key)
  {
    if p < |events| {
      UndisturbedStays(store, events[..|events| - 1], p, key);
      assert events[..|events| - 1][..p] == events[..p];
    } else {
      assert events[..p] == events;
    }
  }

  /** A key that a delete marker hides at some point of the cleanup, and that nobody writes
      afterwards, never becomes visible again. */
  lemma HiddenStaysHidden(inv: Inventory, store: Store, reachable: set<string>, events: seq<Event>, p: nat, key: string)
    requires WellFormed(store) && Lists(inv, store) && p <= |events|
    requires Deletions(events) <= |PlanOf(inv, reachable)| && WritersFresh(store, events)
    requires forall i :: p <= i < |events| && events[i].Put? ==> events[i].key != key
    ensures Deletions(events[..p]) <= |PlanOf(inv, reachable)|
    ensures Hidden(VersionsOf(Run(store, PlanOf(inv, reachable), events[..p]), key)) ==>
      Hidden(VersionsOf(Run(store, PlanOf(inv, reachable), events), key))
  {
    hide PlanOf, LegacyKey, WellFormed, Lists, Run, Kept;
    var plan := PlanOf(inv, reachable);
    DeletionsGrow(events, p);
    assert WritersFresh(store, events[..p]);
    if Unreferenced(key, reachable) {
      LegacyMirrors(store, plan, events[..p], key);
      LegacyMirrors(store, plan, events, key);
      MarkersGoLast(inv, store, reachable, Deletions(events), key);
      if Hidden(VersionsOf(Run(store, plan, events[..p]), key)) {
        HiddenUnderKept(VersionsOf(store, key), Gone(plan, Deletions(events[..p]), key),
                        Gone(plan, Deletions(events), key));
      }
    } else {
      CurrentObjectUnchanged(inv, store, reachable, events[..p], key);
      CurrentObjectUnchanged(inv, store, reachable, events, key);
      UndisturbedStays(store, events, p, key);
    }
  }

  // ---- Once finished, nothing is left to plan ---------------------------------------------------

  function AllDeletions(n: nat): (events: seq<Event>)
    ensures |events| == n && forall e :: e in events ==> e == Deletion
  {
    if n == 0 then [] else AllDeletions(n - 1) + [Deletion]
  }

  lemma {:induction false} CountDeletions(n: nat)
    ensures Deletions(AllDeletions(n)) == n
  {
    if n > 0 {
      CountDeletions(n - 1);
      DeletionsJoin(AllDeletions(n - 1));
    }
  }

  lemma DeletionsJoin(events: seq<Event>)
    ensures Deletions(events + [Deletion]) == Deletions(events) + 1
  {
    assert (events + [Deletion])[..|events|] == events;
  }

  lemma {:induction false} UndisturbedByDeletions(store: Store, n: nat)
    ensures Undisturbed(store, AllDeletions(n)) == store
  {
    if n > 0 {
      UndisturbedByDeletions(store, n - 1);
      assert AllDeletions(n)[..n - 1] == AllDeletions(n - 1);
    }
  }

  /** What the complete plan leaves of a key. */
  lemma FinishedKey(inv: Inventory, store: Store, reachable: set<string>, key: string)
    requires WellFormed(store) && Lists(inv, store)
    ensures Deletions(AllDeletions(|PlanOf(inv, reachable)|)) == |PlanOf(inv, reachable)|
    ensures var plan := PlanOf(inv, reachable);
      VersionsOf(Run(store, plan, AllDeletions(|plan|)), key) == Kept(VersionsOf(store, key), Gone(plan, |plan|, key))
    ensures key in reachable || !LegacyKey(key) ==> Harmless(PlanOf(inv, reachable), key, VersionsOf(store, key))
  {
    hide PlanOf, LegacyKey, WellFormed, Lists, Run, Kept, Gone, Harmless;
    var plan := PlanOf(inv, reachable);
    CountDeletions(|plan|);
    UndisturbedByDeletions(store, |plan|);
    if key in reachable || !LegacyKey(key) {
      PlanIsHarmless(inv, store, reachable, key);
      RunMirrors(store, plan, AllDeletions(|plan|), key);
    } else {
      LegacyMirrors(store, plan, AllDeletions(|plan|), key);
    }
  }

  lemma PlannedIsGone(plan: seq<Row>, key: string)
    ensures forall r :: r in plan && r.key == key ==> r.id in Gone(plan, |plan|, key)
  {
  }

  /** No record of the cleaned bucket is selected again. */
  lemma NothingSelectedAgain(inv: Inventory, store: Store, reachable: set<string>, key: string, i: nat)
    requires WellFormed(store) && Lists(inv, store)
    requires Deletions(AllDeletions(|PlanOf(inv, reachable)|)) == |PlanOf(inv, reachable)|
    requires var plan := PlanOf(inv, reachable); i < |VersionsOf(Run(store, plan, AllDeletions(|plan|)), key)|
    ensures var list := VersionsOf(Run(store, PlanOf(inv, reachable), AllDeletions(|PlanOf(inv, reachable)|)), key);
      !Selected(RowOf(key, list[i], i == 0), reachable)
  {
    hide PlanOf, LegacyKey, AllowedKey, WellFormed, Run, Kept;
    var plan := PlanOf(inv, reachable);
    PlanMembers(inv, reachable);
    FinishedKey(inv, store, reachable, key);
    var before := VersionsOf(store, key);
    var list := VersionsOf(Run(store, plan, AllDeletions(|plan|)), key);
    var v := list[i];
    assert v in before && v.id !in Gone(plan, |plan|, key);
    var j :| 0 <= j < |before| && before[j] == v;
    var row := RowOf(key, v, j == 0);
    assert row in inv.versions;
    PlannedIsGone(plan, key);
    if j == 0 && !Unreferenced(key, reachable) {
      KeptHead(before, Gone(plan, |plan|, key));
      KeptFirst(store, key, Gone(plan, |plan|, key), i);
    }
  }

  /** The newest version occurs once. */
  lemma KeptFirst(store: Store, key: string, gone: set<string>, i: nat)
    requires WellFormed(store) && VersionsOf(store, key) != [] && VersionsOf(store, key)[0].id !in gone
    requires i < |Kept(VersionsOf(store, key), gone)|
      && Kept(VersionsOf(store, key), gone)[i] == VersionsOf(store, key)[0]
    ensures i == 0
  {
    KeptDistinct(store[key], gone);
    KeptHead(store[key], gone);
  }

  /** A version is planned exactly when the selection rule takes its record. */
  lemma GoneIff(inv: Inventory, store: Store, reachable: set<string>, key: string, i: nat)
    requires WellFormed(store) && Lists(inv, store) && i < |VersionsOf(store, key)|
    ensures var plan, v := PlanOf(inv, reachable), VersionsOf(store, key)[i];
      v.id in Gone(plan, |plan|, key) <==> Selected(RowOf(key, v, i == 0), reachable)
  {
    hide PlanOf, Selected, WellFormed;
    var plan, v := PlanOf(inv, reachable), VersionsOf(store, key)[i];
    PlanMembers(inv, reachable);
    assert RowOf(key, v, i == 0) in inv.versions;
    if v.id in Gone(plan, |plan|, key) {
      var m :| 0 <= m < |plan| && plan[m].key == key && plan[m].id == v.id;
      assert plan[m] in plan;
      var j := PlannedVersion(inv, store, plan[m]);
      DistinctAt(store, key, i, j);
    } else {
      PlannedIsGone(plan, key);
    }
  }

  /** What the whole cleanup leaves, key by key. A key outside the publication keeps everything.
      Of any other it keeps the newest version, unless it is a legacy key that nothing refers to,
      and the null versions of the stable layout, which a writer may still replace; nothing else. */
  lemma CleanupLeaves(inv: Inventory, store: Store, reachable: set<string>, key: string)
    requires WellFormed(store) && Lists(inv, store)
    ensures Deletions(AllDeletions(|PlanOf(inv, reachable)|)) == |PlanOf(inv, reachable)|
    ensures var list := VersionsOf(store, key);
      var left := VersionsOf(Run(store, PlanOf(inv, reachable), AllDeletions(|PlanOf(inv, reachable)|)), key);
      && (forall v :: v in left ==> v in list)
      && (forall i :: 0 <= i < |list| ==>
            (list[i] in left <==>
             !AllowedKey(key) || (list[i].id == NULL && !LegacyKey(key))
             || (i == 0 && !(LegacyKey(key) && key !in reachable))))
      && (AllowedKey(key) ==> NullsBehind(left) && (LegacyKey(key) ==> |left| <= 1))
      && (LegacyKey(key) && key !in reachable ==> left == [])
  {
    hide PlanOf, LegacyKey, AllowedKey, WellFormed, Lists, Run, Kept, Gone, Selected;
    FinishedKey(inv, store, reachable, key);
    var plan, list := PlanOf(inv, reachable), VersionsOf(store, key);
    var gone := Gone(plan, |plan|, key);
    var left := Kept(list, gone);
    forall i | 0 <= i < |list| ensures list[i] in left <==> Stays(key, reachable, list[i], i == 0) {
      GoneIff(inv, store, reachable, key, i);
      StaysIff(key, reachable, list[i], i == 0);
    }
    forall i | 0 < i < |left| ensures NotNewest(list, left[i]) {
      NotFirst(store, key, gone, i);
    }
    LeftTail(key, reachable, list, left);
  }

  /** Behind the first there is nothing but the reusable null version. */
  ghost predicate NullsBehind(left: Versions) {
    forall i :: 0 < i < |left| ==> left[i].id == NULL
  }

  ghost predicate NotNewest(list: Versions, v: Version) {
    list != [] && v != list[0]
  }

  lemma NotFirst(store: Store, key: string, gone: set<string>, i: nat)
    requires WellFormed(store) && 0 < i < |Kept(VersionsOf(store, key), gone)|
    ensures NotNewest(VersionsOf(store, key), Kept(VersionsOf(store, key), gone)[i])
  {
    var list := VersionsOf(store, key);
    var left := Kept(list, gone);
    hide WellFormed, Kept;
    assert left[i] in left;
    assert left[i] in list && left[i].id !in gone;
    if left[i] == list[0] {
      KeptFirst(store, key, gone, i);
    }
  }

  /** What a version is kept for. */
  ghost predicate Stays(key: string, reachable: set<string>, v: Version, newest: bool) {
    !AllowedKey(key) || (v.id == NULL && !LegacyKey(key)) || (newest && !(LegacyKey(key) && key !in reachable))
  }

  lemma StaysIff(key: string, reachable: set<string>, v: Version, newest: bool)
    ensures Selected(RowOf(key, v, newest), reachable) <==> !Stays(key, reachable, v, newest)
  {
    hide LegacyKey, AllowedKey;
    if LegacyKey(key) {
      LegacyIsAllowed(key);
    }
  }

  lemma LeftTail(key: string, reachable: set<string>, list: seq<Version>, left: seq<Version>)
    requires forall v :: v in left ==> v in list
    requires forall i :: 0 <= i < |list| ==> (list[i] in left <==> Stays(key, reachable, list[i], i == 0))
    requires forall i :: 0 < i < |left| ==> NotNewest(list, left[i])
    ensures AllowedKey(key) ==> NullsBehind(left) && (LegacyKey(key) ==> |left| <= 1)
    ensures LegacyKey(key) && key !in reachable ==> left == []
  {
    hide LegacyKey, AllowedKey;
    if AllowedKey(key) {
      forall i | 0 < i < |left| ensures left[i].id == NULL && !LegacyKey(key) {
        var j := IndexOfVersion(list, left, i);
        assert NotNewest(list, left[i]);
        assert Stays(key, reachable, list[j], j == 0);
      }
      if |left| > 1 {
        assert left[1].id == NULL && !LegacyKey(key);
      }
    }
    if LegacyKey(key) && key !in reachable {
      LegacyIsAllowed(key);
      if left != [] {
        var j := IndexOfVersion(list, left, 0);
      }
    }
  }

  lemma IndexOfVersion(list: seq<Version>, left: seq<Version>, i: nat) returns (j: nat)
    requires i < |left| && forall v :: v in left ==> v in list
    ensures j < |list| && list[j] == left[i] && list[j] in left
  {
    assert left[i] in left;
    j :| 0 <= j < |list| && list[j] == left[i];
  }

  /** After the complete plan a fresh plan of the cleaned bucket is accepted and empty. */
  lemma ReplanningSelectsNothing(inv: Inventory, store: Store, reachable: set<string>, again: Inventory)
    requires WellFormed(store) && Lists(inv, store) && Agrees(inv, reachable)
    requires Deletions(AllDeletions(|PlanOf(inv, reachable)|)) == |PlanOf(inv, reachable)|
    requires Lists(again, Run(store, PlanOf(inv, reachable), AllDeletions(|PlanOf(inv, reachable)|)))
    ensures Agrees(again, reachable) && PlanOf(again, reachable) == []
  {
    hide PlanOf, Run, Selected, Agrees, Kept;
    var plan := PlanOf(inv, reachable);
    var cleaned := Run(store, plan, AllDeletions(|plan|));
    forall k | k in cleaned
      ensures k in store && VersionsOf(cleaned, k) == Kept(VersionsOf(store, k), Gone(plan, |plan|, k))
    {
      FinishedKey(inv, store, reachable, k);
      RunKeys(store, plan, AllDeletions(|plan|));
    }
    CleanedIsWellFormed(store, cleaned, plan);
    ListingAgrees(inv, store, reachable);
    ListingAgrees(again, cleaned, reachable);
    UndisturbedByDeletions(store, |plan|);
    forall k | k in reachable ensures k in cleaned && !Hidden(cleaned[k]) {
      CurrentObjectUnchanged(inv, store, reachable, AllDeletions(|plan|), k);
    }
    PlanMembers(again, reachable);
    forall r | r in again.versions ensures !Selected(r, reachable) {
      var i := PlannedVersion(again, cleaned, r);
      NothingSelectedAgain(inv, store, reachable, r.key, i);
    }
    if PlanOf(again, reachable) != [] {
      var r := FirstMember(PlanOf(again, reachable));
    }
  }

  lemma FirstMember(rows: seq<Row>) returns (r: Row)
    requires rows != []
    ensures r in rows
  {
    r := rows[0];
  }

  lemma {:induction false} RunKeys(store: Store, plan: seq<Row>, events: seq<Event>)
    requires Deletions(events) <= |plan| && forall e :: e in events ==> e == Deletion
    ensures Run(store, plan, events).Keys == store.Keys
  {
    if events != [] {
      var front, last := events[..|events| - 1], events[|events| - 1];
      assert last in events;
      forall e | e in front ensures e == Deletion {
        assert e in events;
      }
      RunKeys(store, plan, front);
    }
  }

  lemma CleanedIsWellFormed(store: Store, cleaned: Store, plan: seq<Row>)
    requires WellFormed(store)
    requires forall k :: k in cleaned ==>
      k in store && VersionsOf(cleaned, k) == Kept(VersionsOf(store, k), Gone(plan, |plan|, k))
    ensures WellFormed(cleaned)
  {
    forall k | k in cleaned ensures Distinct(cleaned[k]) {
      KeptDistinct(store[k], Gone(plan, |plan|, k));
    }
  }

  lemma {:induction false} KeptDistinct(list: Versions, gone: set<string>)
    requires Distinct(list)
    ensures Distinct(Kept(list, gone))
  {
    if list != [] {
      KeptDistinct(list[1..], gone);
      var rest := Kept(list[1..], gone);
      forall i | 0 <= i < |rest| ensures rest[i].id != list[0].id {
        assert rest[i] in list[1..];
      }
    }
  }

  // ---- Carrying the plan out ------------------------------------------------------------------

  const DELETE_BATCH_SIZE := 25

  class Bucket {
    var store: Store

    method DeleteVersion(row: Row)
      modifies this
      ensures store == Deleted(old(store), row.key, row.id)
    {
      store := if row.key in store then store[row.key := Kept(store[row.key], {row.id})] else store;
    }

    method PutVersion(key: string, v: Version)
      modifies this
      ensures store == Stored(old(store), key, v)
    {
      store := store[key := Stacked(if key in store then store[key] else [], v)];
    }
  }

  datatype Status = Stale | Interrupted | Complete

  /** The events so far have deleted the first rows of the plan. */
  ghost predicate CarriedOut(origin: Store, now: Store, plan: seq<Row>, events: seq<Event>, deleted: seq<Row>) {
    Deletions(events) == |deleted| <= |plan| && deleted == plan[..|deleted|]
    && now == Run(origin, plan, events) && WritersFresh(origin, events)
  }

  lemma OneMoreDeletion(origin: Store, now: Store, plan: seq<Row>, events: seq<Event>, deleted: seq<Row>)
    requires CarriedOut(origin, now, plan, events, deleted) && |deleted| < |plan|
    ensures var row := plan[|deleted|];
      CarriedOut(origin, Deleted(now, row.key, row.id), plan, events + [Deletion], deleted + [row])
  {
    hide Kept, LegacyKey;
    assert (events + [Deletion])[..|events|] == events;
  }

  lemma OneMorePut(origin: Store, now: Store, plan: seq<Row>, events: seq<Event>, deleted: seq<Row>, key: string,
                   v: Version)
    requires CarriedOut(origin, now, plan, events, deleted) && WritersFresh(origin, [Put(key, v)])
    ensures CarriedOut(origin, Stored(now, key, v), plan, events + [Put(key, v)], deleted)
  {
    hide Stacked, LegacyKey;
    var e := Put(key, v);
    assert e in [e];
    assert (events + [e])[..|events|] == events;
  }

  /** The writers that come before the next deletion. */
  method LetWrite(bucket: Bucket, writes: seq<(string, Version)>, ghost origin: Store, plan: seq<Row>,
                  ghost events: seq<Event>, deleted: seq<Row>)
    returns (ghost after: seq<Event>)
    requires CarriedOut(origin, bucket.store, plan, events, deleted)
    requires forall w :: w in writes ==> WritersFresh(origin, [Put(w.0, w.1)])
    modifies bucket
    ensures CarriedOut(origin, bucket.store, plan, after, deleted)
  {
    hide CarriedOut, WritersFresh, Stored;
    after := events;
    for i := 0 to |writes|
      invariant CarriedOut(origin, bucket.store, plan, after, deleted)
    {
      assert writes[i] in writes;
      OneMorePut(origin, bucket.store, plan, after, deleted, writes[i].0, writes[i].1);
      bucket.PutVersion(writes[i].0, writes[i].1);
      after := after + [Put(writes[i].0, writes[i].1)];
    }
  }

  /** cleanup_publication_storage.apply_cleanup. `current` is the inventory taken under the
      lease; before deletion n the writes writers[n] arrive; a lost lease, a changed
      publication or a dying process ends the run before deletion number `survives`. */
  method ApplyCleanup(bucket: Bucket, planned: Inventory, deletions: seq<Row>, current: Inventory,
                      reachable: set<string>, writers: seq<seq<(string, Version)>>, survives: nat)
    returns (status: Status, deleted: seq<Row>, ghost events: seq<Event>)
    requires WellFormed(bucket.store) && Lists(current, bucket.store)
    requires forall ws, w :: ws in writers && w in ws ==> WritersFresh(bucket.store, [Put(w.0, w.1)])
    modifies bucket
    ensures status == Stale
      <==> planned != current || !Agrees(current, reachable) || deletions != PlanOf(current, reachable)
    ensures status == Stale ==> bucket.store == old(bucket.store) && deleted == []
    ensures status != Stale ==> CarriedOut(old(bucket.store), bucket.store, PlanOf(current, reachable), events, deleted)
    ensures status == Complete ==> deleted == PlanOf(current, reachable)
    ensures status != Stale ==> (status == Complete <==> survives >= |PlanOf(current, reachable)|)
    ensures status != Stale ==> forall key :: key in reachable || !LegacyKey(key) ==>
      var with, without := VersionsOf(bucket.store, key), VersionsOf(Undisturbed(old(bucket.store), events), key);
      (with == [] <==> without == []) && (with != [] ==> with[0] == without[0])
  {
    var size := DELETE_BATCH_SIZE;
    assert size > 0;
    hide *;
    deleted, events := [], [];
    if planned != current {
      return Stale, deleted, events;
    }
    var plan := Candidates(current, reachable);
    if plan != Planned(deletions) {
      return Stale, deleted, events;
    }
    ghost var origin := bucket.store;
    NothingCarriedOut(origin, deletions);
    var stopped := false;
    while |deleted| < |deletions| && !stopped
      invariant |deleted| <= |deletions| && CarriedOut(origin, bucket.store, deletions, events, deleted)
      invariant stopped ==> |deleted| >= survives
      invariant |deleted| <= survives && (stopped ==> |deleted| < |deletions|)
      decreases |deletions| - |deleted|, if stopped then 0 else 1
    {
      stopped := |deleted| >= survives;
      var end := if |deletions| - |deleted| < size then |deletions| else |deleted| + size;
      while |deleted| < end && !stopped
        invariant |deleted| <= end && CarriedOut(origin, bucket.store, deletions, events, deleted)
        invariant |deleted| <= survives && (stopped ==> |deleted| >= survives && |deleted| < |deletions|)
        decreases end - |deleted|, if stopped then 0 else 1
      {
        events := LetWrite(bucket, if |deleted| < |writers| then writers[|deleted|] else [], origin, deletions, events,
                           deleted);
        stopped := |deleted| >= survives;
        if !stopped {
          OneMoreDeletion(origin, bucket.store, deletions, events, deleted);
          bucket.DeleteVersion(deletions[|deleted|]);
          events := events + [Deletion];
          deleted := deleted + [deletions[|deleted|]];
        }
      }
    }
    CarriedOutMeans(origin, bucket.store, deletions, events, deleted);
    forall key | key in reachable || !LegacyKey(key)
      ensures var with, without := VersionsOf(bucket.store, key), VersionsOf(Undisturbed(origin, events), key);
        (with == [] <==> without == []) && (with != [] ==> with[0] == without[0])
    {
      CurrentObjectUnchanged(current, origin, reachable, events, key);
    }
    status := if |deleted| < |deletions| then Interrupted else Complete;
  }

  lemma NothingCarriedOut(store: Store, plan: seq<Row>)
    ensures CarriedOut(store, store, plan, [], [])
  {
  }

  lemma CarriedOutMeans(origin: Store, now: Store, plan: seq<Row>, events: seq<Event>, deleted: seq<Row>)
    requires CarriedOut(origin, now, plan, events, deleted)
    ensures Deletions(events) == |deleted| <= |plan| && WritersFresh(origin, events) && now == Run(origin, plan, events)
    ensures |deleted| == |plan| ==> deleted == plan
  {
  }
}
