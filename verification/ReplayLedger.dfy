/** The append-only ledgers and the virtual clock that replays manifests against them. */
module ReplayLedger {
  import opened Common
  import opened Sorting
  import opened Order
  import opened Replay

  predicate IdLessOrEqual(a: Record, b: Record) { LessOrEqual(a.recordId, b.recordId) }

  ghost predicate AllVerified(h: Hasher, records: map<string, Record>) {
    forall id | id in records :: Verified(h, records[id])
  }

  /** The newest of the first `n` records per key. */
  ghost predicate LatestSoFar(rs: seq<Record>, n: nat, t: int, v: Visibility, latest: map<string, Record>)
    requires n <= |rs|
  {
    && (forall k | k in latest ::
          && latest[k].logicalKey == k && VisibleAt(latest[k], t, v)
          && exists i :: 0 <= i < n && rs[i] == latest[k])
    && (forall i | 0 <= i < n && VisibleAt(rs[i], t, v) ::
          rs[i].logicalKey in latest && !Newer(rs[i], latest[rs[i].logicalKey]))
  }

  lemma LatestIsSelected(records: map<string, Record>, rs: seq<Record>, t: int, v: Visibility,
                         latest: map<string, Record>, r: Record)
    requires Keyed(records) && LatestSoFar(rs, |rs|, t, v, latest)
    requires forall x :: x in rs <==> Stored(records, x)
    ensures Selected(records, t, v, r) <==> r.logicalKey in latest && latest[r.logicalKey] == r
  {
    hide Newer;
    forall id | id in records && VisibleAt(records[id], t, v)
      ensures records[id].logicalKey in latest && !Newer(records[id], latest[records[id].logicalKey])
    {
      assert records[id] in rs;
      var i :| 0 <= i < |rs| && rs[i] == records[id];
    }
    if Selected(records, t, v, r) {
      var winner := latest[r.logicalKey];
      assert winner in rs;
      assert Stored(records, winner);
      NewerIsTotal(r, winner);
    }
  }

  method SortedByKey(latest: map<string, Record>) returns (view: seq<Record>)
    requires forall k | k in latest :: latest[k].logicalKey == k
    ensures SortedBy(KeyLess, view)
    ensures forall r :: r in view <==> r.logicalKey in latest && latest[r.logicalKey] == r
  {
    view := [];
    var left := latest.Keys;
    while left != {}
      invariant left <= latest.Keys && Distinct(view)
      invariant forall r :: r in view <==>
        r.logicalKey in latest && r.logicalKey !in left && latest[r.logicalKey] == r
      decreases left
    {
      var k :| k in left;
      view := view + [latest[k]];
      left := left - {k};
    }
    LessIsStrictTotalOrder();
    hide Less;
    SortIsSorted(KeyLessOrEqual, view);
    SortKeepsElements(KeyLessOrEqual, view);
    SortKeepsDistinct(KeyLessOrEqual, view);
    view := SortBy(KeyLessOrEqual, view);
    forall i, j | 0 <= i < j < |view| ensures KeyLess(view[i], view[j]) {
      assert view[i] in view && view[j] in view;
      assert KeyLessOrEqual(view[i], view[j]);
    }
  }

  class PointInTimeLedger {
    const hasher: Hasher
    var records: map<string, Record>

    ghost predicate Valid()
      reads this
    {
      Keyed(records) && AllVerified(hasher, records)
    }

    constructor (hasher: Hasher)
      ensures Valid() && this.hasher == hasher && records == map[]
    {
      this.hasher := hasher;
      records := map[];
    }

    method Append(r: Record) returns (done: Result<(), PitError>)
      requires Valid()
      modifies this
      ensures Valid()
      ensures done.Ok? <==> Verified(hasher, r) && (r.recordId in old(records) ==> old(records)[r.recordId] == r)
      ensures records == if done.Ok? then old(records)[r.recordId := r] else old(records)
    {
      if r.publishedAt > r.firstSeenAt { return Err(SeenBeforePublished); }
      if hasher.content(r.content) != r.contentHash { return Err(ContentHashMismatch); }
      if hasher.identity(r.(recordId := "", content := "")) != r.recordId { return Err(IdentityMismatch); }
      if r.recordId in records && records[r.recordId] != r { return Err(ImmutableCollision); }
      records := records[r.recordId := r];
      return Ok(());
    }

    /** All records in id order. */
    method Records() returns (rs: seq<Record>)
      requires Keyed(records)
      ensures SortedBy(IdLessOrEqual, rs)
      ensures forall r :: r in rs <==> Stored(records, r)
    {
      rs := [];
      var left := records.Keys;
      while left != {}
        invariant left <= records.Keys
        invariant forall r :: r in rs <==> Stored(records, r) && r.recordId !in left
        decreases left
      {
        var id :| id in left;
        rs := rs + [records[id]];
        left := left - {id};
      }
      LessIsStrictTotalOrder();
      hide Less;
      SortIsSorted(IdLessOrEqual, rs);
      SortKeepsElements(IdLessOrEqual, rs);
      rs := SortBy(IdLessOrEqual, rs);
    }

    method VisibleRecords(t: int, v: Visibility) returns (view: seq<Record>)
      requires Valid()
      ensures IsView(records, t, v, view)
    {
      hide Newer, Verified, Less;
      var rs := Records();
      var latest: map<string, Record> := map[];
      for i := 0 to |rs|
        invariant LatestSoFar(rs, i, t, v, latest)
      {
        var r := rs[i];
        if VisibleAt(r, t, v) {
          if r.logicalKey !in latest || Newer(r, latest[r.logicalKey]) {
            NewerReplaces(rs, i, t, v, latest);
            latest := latest[r.logicalKey := r];
          }
        }
      }
      view := SortedByKey(latest);
      hide LatestSoFar;
      forall r ensures r in view <==> Selected(records, t, v, r) {
        LatestIsSelected(records, rs, t, v, latest, r);
      }
    }

    method BuildManifest(t: int) returns (m: Manifest)
      requires Valid()
      ensures m.asOf == t && m.hash == hasher.manifest(t, m.entries)
      ensures exists view :: IsView(records, t, Observed, view) && m.entries == EntriesOf(view)
    {
      hide IsView;
      var view := VisibleRecords(t, Observed);
      ViewNeedsNoSorting(records, t, Observed, view);
      m := CreateManifest(hasher, t, view);
    }

    /** The checks of one manifest entry against the ledger and the expected view. */
    method CheckEntry(e: Entry, t: int, expected: map<string, Record>) returns (r: Result<Record, PitError>)
      requires Valid()
      requires forall x :: Selected(records, t, Observed, x) <==> x.logicalKey in expected && expected[x.logicalKey] == x
      ensures r.Ok? <==> NamesSelected(records, t, e)
      ensures r.Ok? ==> r.value == records[e.recordId]
    {
      hide Newer, Verified, Selected;
      SelectedIsSeen(records, t);
      if e.recordId !in records { return Err(RecordMissing); }
      var record := records[e.recordId];
      if record.firstSeenAt > t { return Err(FutureRecord); }
      if record.contentHash != e.contentHash { return Err(EntryHashMismatch); }
      if record.logicalKey != e.logicalKey { return Err(EntryKeyMismatch); }
      if e.logicalKey !in expected || expected[e.logicalKey] != record { return Err(NotVisibleRevision); }
      return Ok(record);
    }

    method Replay(m: Manifest) returns (r: Result<seq<Record>, PitError>)
      requires Valid()
      ensures r.Ok? <==> m.hash == hasher.manifest(m.asOf, m.entries) && Faithful(records, m.asOf, m.entries)
      ensures r.Ok? ==>
        && |r.value| == |m.entries|
        && forall i | 0 <= i < |r.value| :: m.entries[i].recordId in records && r.value[i] == records[m.entries[i].recordId]
    {
      hide Newer, Verified, Selected, NamesSelected;
      if m.hash != hasher.manifest(m.asOf, m.entries) { return Err(ManifestHashMismatch); }
      var view := VisibleRecords(m.asOf, Observed);
      var expected := IndexByKey(m.asOf, view);
      var replayed: seq<Record> := [];
      for i := 0 to |m.entries|
        invariant |replayed| == i
        invariant forall j | 0 <= j < i :: NamesSelected(records, m.asOf, m.entries[j])
        invariant forall j | 0 <= j < i :: m.entries[j].recordId in records && replayed[j] == records[m.entries[j].recordId]
      {
        var checked := CheckEntry(m.entries[i], m.asOf, expected);
        if checked.Err? {
          assert m.entries[i] in m.entries;
          return Err(checked.error);
        }
        NamedIsStored(records, m.asOf, m.entries[i]);
        replayed := replayed + [checked.value];
      }
      var keys := set e | e in m.entries :: e.logicalKey;
      EntriesCoverKeys(records, m.asOf, m.entries, expected);
      if keys != expected.Keys { return Err(IncompleteView); }
      return Ok(replayed);
    }

    method IndexByKey(t: int, view: seq<Record>) returns (expected: map<string, Record>)
      requires IsView(records, t, Observed, view)
      ensures forall x :: Selected(records, t, Observed, x) <==> x.logicalKey in expected && expected[x.logicalKey] == x
      ensures forall k | k in expected :: expected[k].logicalKey == k
    {
      hide Selected;
      expected := map[];
      for i := 0 to |view|
        invariant forall k | k in expected :: expected[k].logicalKey == k && expected[k] in view
        invariant forall j | 0 <= j < i :: view[j].logicalKey in expected
      {
        expected := expected[view[i].logicalKey := view[i]];
      }
      forall x ensures Selected(records, t, Observed, x) <==> x.logicalKey in expected && expected[x.logicalKey] == x {
        if Selected(records, t, Observed, x) {
          assert x in view;
          var other := expected[x.logicalKey];
          assert other in view;
          SelectionIsUnique(records, t, Observed, x, other);
        }
      }
    }
  }

  lemma NewerReplaces(rs: seq<Record>, i: nat, t: int, v: Visibility, latest: map<string, Record>)
    requires i < |rs| && LatestSoFar(rs, i, t, v, latest) && VisibleAt(rs[i], t, v)
    requires rs[i].logicalKey !in latest || Newer(rs[i], latest[rs[i].logicalKey])
    ensures LatestSoFar(rs, i + 1, t, v, latest[rs[i].logicalKey := rs[i]])
  {
    hide Newer;
    var next := latest[rs[i].logicalKey := rs[i]];
    forall j | 0 <= j < i + 1 && VisibleAt(rs[j], t, v)
      ensures rs[j].logicalKey in next && !Newer(rs[j], next[rs[j].logicalKey])
    {
      NewerIsTotal(rs[i], rs[i]);
      if j < i && rs[j].logicalKey == rs[i].logicalKey && Newer(rs[j], rs[i]) {
        NewerIsTransitive(rs[j], rs[i], latest[rs[i].logicalKey]);
      }
    }
  }

  lemma SelectedIsSeen(records: map<string, Record>, t: int)
    ensures forall x :: Selected(records, t, Observed, x) ==>
      x.recordId in records && records[x.recordId] == x && x.firstSeenAt <= t
  {
  }

  lemma NamedIsStored(records: map<string, Record>, t: int, e: Entry)
    requires NamesSelected(records, t, e)
    ensures e.recordId in records
  {
  }

  lemma EntriesCoverKeys(records: map<string, Record>, t: int, entries: seq<Entry>, expected: map<string, Record>)
    requires forall x :: Selected(records, t, Observed, x) <==> x.logicalKey in expected && expected[x.logicalKey] == x
    requires forall k | k in expected :: expected[k].logicalKey == k
    requires forall j | 0 <= j < |entries| :: NamesSelected(records, t, entries[j])
    ensures (set e | e in entries :: e.logicalKey) == expected.Keys <==> Faithful(records, t, entries)
  {
    hide Selected;
    var keys := set e | e in entries :: e.logicalKey;
    forall k | k in keys ensures k in expected {
      var e :| e in entries && e.logicalKey == k;
      assert NamesSelected(records, t, e);
    }
    if keys == expected.Keys {
      forall r | Selected(records, t, Observed, r) ensures exists e :: e in entries && e.logicalKey == r.logicalKey {
        assert r.logicalKey in keys;
      }
    }
    if Faithful(records, t, entries) {
      forall k | k in expected ensures k in keys {
        assert Selected(records, t, Observed, expected[k]);
      }
    }
  }

  /** A successful replay returns exactly the visible set; the manifest of the view returns the view itself. */
  lemma ReplayedRecordsAreTheView(records: map<string, Record>, t: int, view: seq<Record>, entries: seq<Entry>,
                                  replayed: seq<Record>)
    requires Keyed(records) && IsView(records, t, Observed, view) && Faithful(records, t, entries)
    requires |replayed| == |entries|
    requires forall i | 0 <= i < |replayed| :: entries[i].recordId in records && replayed[i] == records[entries[i].recordId]
    ensures forall r :: r in replayed <==> r in view
    ensures entries == EntriesOf(view) ==> replayed == view
  {
    hide Selected, Keyed, Newer, Less;
    forall i | 0 <= i < |replayed| ensures replayed[i] in view {
      assert NamesSelected(records, t, entries[i]);
    }
    forall r | r in view ensures r in replayed { ViewIsReplayed(records, t, view, entries, replayed, r); }
    if entries == EntriesOf(view) {
      forall i | 0 <= i < |view| ensures replayed[i] == view[i] {
        assert view[i] in view;
        SelectedIsStored(records, t, view[i]);
      }
    }
  }

  lemma SelectedIsStored(records: map<string, Record>, t: int, r: Record)
    requires Keyed(records) && Selected(records, t, Observed, r)
    ensures r.recordId in records && records[r.recordId] == r
  {
  }

  lemma ViewIsReplayed(records: map<string, Record>, t: int, view: seq<Record>, entries: seq<Entry>,
                       replayed: seq<Record>, r: Record)
    requires Keyed(records) && IsView(records, t, Observed, view) && Faithful(records, t, entries)
    requires |replayed| == |entries|
    requires forall i | 0 <= i < |replayed| :: entries[i].recordId in records && replayed[i] == records[entries[i].recordId]
    requires r in view
    ensures r in replayed
  {
    hide Newer, Less;
    assert Selected(records, t, Observed, r);
    var e :| e in entries && e.logicalKey == r.logicalKey;
    assert NamesSelected(records, t, e);
    SelectionIsUnique(records, t, Observed, r, records[e.recordId]);
    var i :| 0 <= i < |entries| && entries[i] == e;
    assert replayed[i] == r;
  }

  /** A client of the ledger: a manifest replays to the view it was built from, before and after any
      append of a record first seen later. */
  method ManifestSurvivesAppend(ledger: PointInTimeLedger, t: int, later: Record)
      returns (first: Result<seq<Record>, PitError>, second: Result<seq<Record>, PitError>)
    requires ledger.Valid() && later.firstSeenAt > t && later.recordId !in ledger.records
    modifies ledger
    ensures first.Ok? && second == first
    ensures IsView(old(ledger.records), t, Observed, first.value)
  {
    hide IsView, Faithful, AllVerified, Verified;
    ghost var before := ledger.records;
    var m := ledger.BuildManifest(t);
    ghost var view :| IsView(before, t, Observed, view) && m.entries == EntriesOf(view);
    ManifestOfViewIsFaithful(before, t, view);
    first := ledger.Replay(m);
    ReplayedRecordsAreTheView(before, t, view, m.entries, first.value);
    var appended := ledger.Append(later);
    FaithfulUnderLaterRecords(before, ledger.records, t, m.entries);
    second := ledger.Replay(m);
    assert forall i | 0 <= i < |first.value| :: second.value[i] == first.value[i];
    assert |second.value| == |first.value|;
    assert second.value == first.value;
  }

  // ----- the batch ledger -----

  ghost predicate OneRecordPerKey(lines: seq<Record>) {
    forall i, j | 0 <= i < j < |lines| :: lines[i].logicalKey != lines[j].logicalKey
  }

  class PitBatchLedger {
    const hasher: Hasher
    var lines: seq<Record>

    ghost predicate Valid()
      reads this
    {
      OneRecordPerKey(lines) && forall r | r in lines :: Verified(hasher, r)
    }

    constructor (hasher: Hasher)
      ensures Valid() && this.hasher == hasher && lines == []
    {
      this.hasher := hasher;
      lines := [];
    }

    method Find(key: string) returns (found: Option<Record>)
      requires Valid()
      ensures found.None? <==> forall r | r in lines :: r.logicalKey != key
      ensures found.Some? ==> found.value in lines && found.value.logicalKey == key
    {
      for i := 0 to |lines|
        invariant forall j | 0 <= j < i :: lines[j].logicalKey != key
      {
        if lines[i].logicalKey == key { return Some(lines[i]); }
      }
      return None;
    }

    /** A key is written once: the same record again changes nothing, another one is refused. */
    method Append(r: Record) returns (done: Result<(), PitError>)
      requires Valid()
      modifies this
      ensures Valid()
      ensures done.Ok? <==>
        && Verified(hasher, r)
        && forall x | x in old(lines) && x.logicalKey == r.logicalKey :: x.recordId == r.recordId
      ensures lines == if done.Ok? && (forall x | x in old(lines) :: x.logicalKey != r.logicalKey)
                       then old(lines) + [r] else old(lines)
    {
      if r.publishedAt > r.firstSeenAt { return Err(SeenBeforePublished); }
      if hasher.content(r.content) != r.contentHash { return Err(ContentHashMismatch); }
      if hasher.identity(r.(recordId := "", content := "")) != r.recordId { return Err(IdentityMismatch); }
      hide Verified;
      var existing := Find(r.logicalKey);
      if existing.Some? && existing.value.recordId != r.recordId { return Err(ConflictingBatch); }
      if existing.Some? {
        OnlyOneOfKey(lines, existing.value);
        return Ok(());
      }
      assert forall i | 0 <= i < |lines| :: lines[i] in lines;
      lines := lines + [r];
      return Ok(());
    }

    /** The manifest of a batch ledger: by availability unless asked otherwise. */
    method EmitManifest(t: int, v: Visibility) returns (r: Result<Manifest, PitError>)
      requires Valid()
      ensures r.Ok? <==> forall a, b | a in lines && b in lines && a.recordId == b.recordId :: a == b
      ensures r.Ok? ==>
        && r.value.asOf == t && r.value.hash == hasher.manifest(t, r.value.entries)
        && exists view: seq<Record> ::
             && SortedBy(KeyLess, view) && r.value.entries == EntriesOf(view)
             && forall x :: x in view <==> x in lines && VisibleAt(x, t, v)
    {
      hide Verified, IsView;
      var ledger := new PointInTimeLedger(hasher);
      for i := 0 to |lines|
        invariant ledger.Valid() && ledger.hasher == hasher && fresh(ledger)
        invariant forall x :: Stored(ledger.records, x) <==> x in lines[..i]
      {
        assert lines[..i + 1] == lines[..i] + [lines[i]];
        var done := ledger.Append(lines[i]);
        if done.Err? {
          var other := ledger.records[lines[i].recordId];
          assert Stored(ledger.records, other);
          assert other in lines && lines[i] in lines;
          return Err(done.error);
        }
      }
      assert lines[..|lines|] == lines;
      var view := ledger.VisibleRecords(t, v);
      ViewNeedsNoSorting(ledger.records, t, v, view);
      SingleRevisionsAreVisible(ledger.records, lines, t, v, view);
      r := Ok(CreateManifest(hasher, t, view));
    }
  }

  lemma OnlyOneOfKey(lines: seq<Record>, r: Record)
    requires OneRecordPerKey(lines) && r in lines
    ensures forall x | x in lines && x.logicalKey == r.logicalKey :: x == r
  {
    forall x | x in lines && x.logicalKey == r.logicalKey ensures x == r {
      var i :| 0 <= i < |lines| && lines[i] == x;
      var j :| 0 <= j < |lines| && lines[j] == r;
    }
  }

  lemma SingleRevisionsAreVisible(records: map<string, Record>, lines: seq<Record>, t: int, v: Visibility, view: seq<Record>)
    requires Keyed(records) && OneRecordPerKey(lines) && IsView(records, t, v, view)
    requires forall x :: Stored(records, x) <==> x in lines
    ensures SortedBy(KeyLess, view)
    ensures forall x :: x in view <==> x in lines && VisibleAt(x, t, v)
    ensures forall a, b | a in lines && b in lines && a.recordId == b.recordId :: a == b
  {
    hide Newer, Less;
    forall x ensures x in view <==> x in lines && VisibleAt(x, t, v) {
      if x in lines && VisibleAt(x, t, v) {
        NewerIsTotal(x, x);
        OnlyOneOfKey(lines, x);
        assert forall id | id in records :: Stored(records, records[id]);
        assert Selected(records, t, v, x);
      }
    }
    forall a, b | a in lines && b in lines && a.recordId == b.recordId ensures a == b {
      assert Stored(records, a) && Stored(records, b);
    }
  }
}
