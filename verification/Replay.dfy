/** Point-in-time replay: which facts were visible at an instant, and manifests that pin them down. */
module Replay {
  import opened Sorting
  import opened Order

  datatype Record = Record(
    recordId: string, logicalKey: string, publishedAt: int, firstSeenAt: int,
    provider: string, providerVersion: string, schemaVersion: string, contentHash: string, content: string)

  datatype Entry = Entry(logicalKey: string, recordId: string, contentHash: string)

  datatype Manifest = Manifest(asOf: int, entries: seq<Entry>, hash: string)

  datatype PitError =
    | SeenBeforePublished | ContentHashMismatch | IdentityMismatch | ImmutableCollision | ManifestHashMismatch
    | RecordMissing | FutureRecord | EntryHashMismatch | EntryKeyMismatch | NotVisibleRevision | IncompleteView
    | ConflictingBatch

  /** The hashes of the program, any functions whatsoever: nothing below needs them to be injective. */
  datatype Hasher = Hasher(content: string -> string, identity: Record -> string, manifest: (int, seq<Entry>) -> string)

  datatype Visibility = Observed | Available

  predicate Verified(h: Hasher, r: Record) {
    && r.publishedAt <= r.firstSeenAt
    && h.content(r.content) == r.contentHash
    && h.identity(r.(recordId := "", content := "")) == r.recordId
  }

  predicate VisibleAt(r: Record, t: int, v: Visibility) {
    if v.Observed? then r.firstSeenAt <= t else r.publishedAt <= t
  }

  /** The revision order: (first_seen, published, record_id). */
  predicate Newer(a: Record, b: Record) {
    a.firstSeenAt > b.firstSeenAt
    || (a.firstSeenAt == b.firstSeenAt
        && (a.publishedAt > b.publishedAt
            || (a.publishedAt == b.publishedAt && Less(b.recordId, a.recordId))))
  }

  ghost predicate Stored(records: map<string, Record>, r: Record) {
    r.recordId in records && records[r.recordId] == r
  }

  ghost predicate Keyed(records: map<string, Record>) { forall id | id in records :: records[id].recordId == id }

  /** `r` is the newest visible revision of its key. */
  ghost predicate Selected(records: map<string, Record>, t: int, v: Visibility, r: Record) {
    && Stored(records, r) && VisibleAt(r, t, v)
    && forall id | id in records && records[id].logicalKey == r.logicalKey && VisibleAt(records[id], t, v) ::
         !Newer(records[id], r)
  }

  predicate KeyLess(a: Record, b: Record) { Less(a.logicalKey, b.logicalKey) }

  predicate KeyLessOrEqual(a: Record, b: Record) { LessOrEqual(a.logicalKey, b.logicalKey) }

  /** The view at an instant: exactly the selected revisions, in key order. */
  ghost predicate IsView(records: map<string, Record>, t: int, v: Visibility, view: seq<Record>) {
    && SortedBy(KeyLess, view)
    && forall r :: r in view <==> Selected(records, t, v, r)
  }

  lemma NewerIsTotal(a: Record, b: Record)
    ensures Newer(a, b) || Newer(b, a) || a.recordId == b.recordId
    ensures !(Newer(a, b) && Newer(b, a))
  {
    LessIsStrictTotalOrder();
  }

  lemma NewerIsTransitive(a: Record, b: Record, c: Record)
    requires Newer(a, b) && Newer(b, c)
    ensures Newer(a, c)
  {
    if a.firstSeenAt == b.firstSeenAt == c.firstSeenAt && a.publishedAt == b.publishedAt == c.publishedAt {
      LessIsTransitive(c.recordId, b.recordId, a.recordId);
    }
  }

  /** The instant by which a record counts as known. */
  function KnownFrom(r: Record, v: Visibility): int {
    match v
    case Observed => r.firstSeenAt
    case Available => r.publishedAt
  }

  /** A revision is selected when it is stored and known, and every other known one of its key was first seen earlier,
      or then and published earlier, or then too and has an id that is not greater. */
  lemma SelectedIsLatest(records: map<string, Record>, t: int, v: Visibility, r: Record)
    ensures Selected(records, t, v, r) <==>
      && r.recordId in records && records[r.recordId] == r && KnownFrom(r, v) <= t
      && forall id | id in records && records[id].logicalKey == r.logicalKey && KnownFrom(records[id], v) <= t ::
           var x := records[id];
           && x.firstSeenAt <= r.firstSeenAt
           && (x.firstSeenAt == r.firstSeenAt ==> x.publishedAt <= r.publishedAt)
           && (x.firstSeenAt == r.firstSeenAt && x.publishedAt == r.publishedAt ==> !Less(r.recordId, x.recordId))
  {
    hide Less;
  }

  /** At most one revision of a key is selected. */
  lemma SelectionIsUnique(records: map<string, Record>, t: int, v: Visibility, a: Record, b: Record)
    requires Selected(records, t, v, a) && Selected(records, t, v, b) && a.logicalKey == b.logicalKey
    ensures a == b
  {
    NewerIsTotal(a, b);
  }

  /** The view depends on the stored records alone, not on the order in which they were appended. */
  lemma ViewIsUnique(records: map<string, Record>, t: int, v: Visibility, a: seq<Record>, b: seq<Record>)
    requires IsView(records, t, v, a) && IsView(records, t, v, b)
    ensures a == b
  {
    LessIsStrictTotalOrder();
    hide Selected, Less;
    StrictOrderIsUnique(KeyLess, a, b);
  }

  /** Records first seen later never change what was visible. */
  lemma LaterRecordsAreInvisible(records: map<string, Record>, later: map<string, Record>, t: int, r: Record)
    requires Keyed(records) && Keyed(later)
    requires forall id | id in records :: id in later && later[id] == records[id]
    requires forall id | id in later && id !in records :: later[id].firstSeenAt > t
    ensures Selected(later, t, Observed, r) <==> Selected(records, t, Observed, r)
  {
    hide Newer;
  }

  function EntryOf(r: Record): Entry { Entry(r.logicalKey, r.recordId, r.contentHash) }

  function EntriesOf(records: seq<Record>): (r: seq<Entry>)
    ensures |r| == |records|
    ensures forall i | 0 <= i < |r| :: r[i] == EntryOf(records[i])
  {
    seq(|records|, i requires 0 <= i < |records| => EntryOf(records[i]))
  }

  function CreateManifest(h: Hasher, asOf: int, records: seq<Record>): Manifest {
    var entries := EntriesOf(SortBy(KeyLessOrEqual, records));
    Manifest(asOf, entries, h.manifest(asOf, entries))
  }

  /** A manifest lists key, id and content hash of every record, in the order of keys, and is sealed by its hash. */
  lemma ManifestListsRecords(h: Hasher, asOf: int, records: seq<Record>)
    ensures var m := CreateManifest(h, asOf, records);
      && m.asOf == asOf && m.hash == h.manifest(asOf, m.entries) && |m.entries| == |records|
      && (forall r | r in records :: Entry(r.logicalKey, r.recordId, r.contentHash) in m.entries)
      && (forall i, j | 0 <= i < j < |m.entries| :: LessOrEqual(m.entries[i].logicalKey, m.entries[j].logicalKey))
  {
    hide Less, SortBy;
    KeysAreOrdered(records);
    SortKeepsElements(KeyLessOrEqual, records);
    var sorted := SortBy(KeyLessOrEqual, records);
    var entries := EntriesOf(sorted);
    forall r | r in records ensures Entry(r.logicalKey, r.recordId, r.contentHash) in entries {
      var i :| 0 <= i < |sorted| && sorted[i] == r;
      assert entries[i] == EntryOf(r);
    }
    forall i, j | 0 <= i < j < |entries| ensures LessOrEqual(entries[i].logicalKey, entries[j].logicalKey) {
      assert KeyLessOrEqual(sorted[i], sorted[j]);
    }
  }

  lemma KeysAreOrdered(records: seq<Record>)
    ensures SortedBy(KeyLessOrEqual, SortBy(KeyLessOrEqual, records))
  {
    hide Less, SortBy;
    KeyOrderIsTotal();
    SortIsSorted(KeyLessOrEqual, records);
  }

  lemma KeyOrderIsTotal()
    ensures TotalPreorder(KeyLessOrEqual)
  {
    LessIsStrictTotalOrder();
    hide Less;
  }

  lemma ViewNeedsNoSorting(records: map<string, Record>, t: int, v: Visibility, view: seq<Record>)
    requires IsView(records, t, v, view)
    ensures SortBy(KeyLessOrEqual, view) == view
  {
    hide Selected, Less;
    forall i, j | 0 <= i < j < |view| ensures KeyLessOrEqual(view[i], view[j]) {
      assert KeyLess(view[i], view[j]);
    }
    SortOfSorted(KeyLessOrEqual, view);
  }

  ghost predicate NamesSelected(records: map<string, Record>, t: int, e: Entry) {
    && e.recordId in records && Selected(records, t, Observed, records[e.recordId])
    && e == EntryOf(records[e.recordId])
  }

  /** Every entry names the visible revision of its key, and no visible key is missing. */
  ghost predicate Faithful(records: map<string, Record>, t: int, entries: seq<Entry>) {
    && (forall e | e in entries :: NamesSelected(records, t, e))
    && (forall r | Selected(records, t, Observed, r) :: exists e :: e in entries && e.logicalKey == r.logicalKey)
  }

  /** The manifest of a view is faithful to it. */
  lemma ManifestOfViewIsFaithful(records: map<string, Record>, t: int, view: seq<Record>)
    requires Keyed(records) && IsView(records, t, Observed, view)
    ensures Faithful(records, t, EntriesOf(view))
  {
    hide Newer, Less;
    var entries := EntriesOf(view);
    forall e | e in entries ensures NamesSelected(records, t, e) {
      var i :| 0 <= i < |entries| && entries[i] == e;
      assert view[i] in view;
      assert Selected(records, t, Observed, view[i]);
    }
    forall r | Selected(records, t, Observed, r) ensures exists e :: e in entries && e.logicalKey == r.logicalKey {
      assert r in view;
      var i :| 0 <= i < |view| && view[i] == r;
      assert entries[i] in entries && entries[i].logicalKey == r.logicalKey;
    }
  }

  /** Faithfulness survives records that are first seen later. */
  lemma FaithfulUnderLaterRecords(records: map<string, Record>, later: map<string, Record>, t: int, entries: seq<Entry>)
    requires Keyed(records) && Keyed(later)
    requires forall id | id in records :: id in later && later[id] == records[id]
    requires forall id | id in later && id !in records :: later[id].firstSeenAt > t
    ensures Faithful(later, t, entries) <==> Faithful(records, t, entries)
  {
    forall r ensures Selected(later, t, Observed, r) <==> Selected(records, t, Observed, r) {
      LaterRecordsAreInvisible(records, later, t, r);
    }
    forall e ensures NamesSelected(later, t, e) <==> NamesSelected(records, t, e) {
      if e.recordId in records {
        assert later[e.recordId] == records[e.recordId];
      } else if e.recordId in later {
        assert !Selected(records, t, Observed, later[e.recordId]);
      }
    }
    hide Selected, NamesSelected;
  }

  /** A record that was already available but only first seen later blocks its key. */
  ghost predicate HasBackfill(records: map<string, Record>, t: int) {
    exists id :: id in records && records[id].publishedAt <= t < records[id].firstSeenAt
  }

  /** Without backfill, availability and observation select the same revisions. */
  lemma NoBackfillSameSelection(records: map<string, Record>, t: int, r: Record)
    requires Keyed(records) && forall id | id in records :: records[id].publishedAt <= records[id].firstSeenAt
    requires !HasBackfill(records, t)
    ensures Selected(records, t, Available, r) <==> Selected(records, t, Observed, r)
  {
    hide Newer;
    forall id | id in records ensures VisibleAt(records[id], t, Available) <==> VisibleAt(records[id], t, Observed) {
      assert !(records[id].publishedAt <= t < records[id].firstSeenAt);
    }
  }

  /** The newest revision among the available ones of a key exists. */
  lemma NewestExists(records: map<string, Record>, keys: set<string>, t: int, v: Visibility, start: Record) returns (newest: Record)
    requires keys <= records.Keys && Keyed(records)
    requires Stored(records, start) && VisibleAt(start, t, v)
    requires forall id | id in records && id !in keys && records[id].logicalKey == start.logicalKey && VisibleAt(records[id], t, v) ::
      !Newer(records[id], start)
    ensures Selected(records, t, v, newest) && newest.logicalKey == start.logicalKey
    ensures newest == start || Newer(newest, start)
    decreases |keys|
  {
    if id :| id in keys {
      hide Less;
      var r := records[id];
      if r.logicalKey == start.logicalKey && VisibleAt(r, t, v) && Newer(r, start) {
        forall other | other in records && other !in keys - {id} && records[other].logicalKey == r.logicalKey
                       && VisibleAt(records[other], t, v)
          ensures !Newer(records[other], r)
        {
          NewerIsTotal(r, r);
          if other != id && Newer(records[other], r) {
            NewerIsTransitive(records[other], r, start);
          }
        }
        newest := NewestExists(records, keys - {id}, t, v, r);
        if newest != r { NewerIsTransitive(newest, r, start); }
      } else {
        newest := NewestExists(records, keys - {id}, t, v, start);
      }
    } else {
      newest := start;
    }
  }

  lemma NewerWasSeenNoEarlier(a: Record, b: Record)
    requires Newer(a, b)
    ensures a.firstSeenAt >= b.firstSeenAt
  {
  }

  /** A backtest manifest (selected by availability) replays exactly when nothing it could have known was
      first seen only later. */
  lemma BacktestManifestReplaysExactlyWithoutBackfill(records: map<string, Record>, t: int, view: seq<Record>)
    requires Keyed(records) && forall id | id in records :: records[id].publishedAt <= records[id].firstSeenAt
    requires IsView(records, t, Available, view)
    ensures Faithful(records, t, EntriesOf(view)) <==> !HasBackfill(records, t)
  {
    hide Newer, Less;
    if HasBackfill(records, t) {
      var id :| id in records && records[id].publishedAt <= t < records[id].firstSeenAt;
      var newest := NewestExists(records, records.Keys, t, Available, records[id]);
      if newest != records[id] { NewerWasSeenNoEarlier(newest, records[id]); }
      assert newest in view;
      var i :| 0 <= i < |view| && view[i] == newest;
      assert EntriesOf(view)[i] in EntriesOf(view);
      assert !NamesSelected(records, t, EntryOf(newest));
    } else {
      forall r { NoBackfillSameSelection(records, t, r); }
      assert IsView(records, t, Observed, view);
      ManifestOfViewIsFaithful(records, t, view);
    }
  }
}
