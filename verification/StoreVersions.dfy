/** What an upload does to the versions of its source, and what every run without
    group restrictions keeps. */
module StoreVersions {
  import opened Sequences
  import opened Documents
  import opened MemoryStore
  import opened StoreRuns
  import InMemoryStore

  /** The document id fixes the logical document (it is a hash of it). */
  ghost predicate OneSource(s: Store, u: Upload) {
    forall r :: r in s.rows && r.Key() == u.Key() ==> r.source == u.Origin()
  }

  /** The row an upload leaves behind when it is not already current. */
  function Stored(s: Store, u: Upload, now: Time): Row {
    match Lookup(s.rows, u.Key())
    case None => NewRow(u, NextVersion(s.rows, u), InheritedAcl(s.rows, u), now)
    case Some(r) => Reinstate(u, NextVersion(s.rows, u), now)(r)
  }

  /** How one old row looks after the upload. */
  function Kept(u: Upload, version: nat, now: Time, r: Row): Row {
    Reinstate(u, version, now)(Supersede(u, now)(r))
  }

  lemma PersistRows(s: Store, u: Upload, now: Time)
    requires Valid(s) && u.chunks != [] && !AlreadyReady(s, u)
    ensures var s' := Persist(s, u, now).0;
            && |s.rows| <= |s'.rows| <= |s.rows| + 1
            && (forall i :: 0 <= i < |s.rows| ==> s'.rows[i] == Kept(u, NextVersion(s.rows, u), now, s.rows[i]))
            && (|s'.rows| == |s.rows| <==> u.Key() in KeysOf(s.rows))
            && (|s'.rows| > |s.rows| ==> s'.rows[|s.rows|] == Stored(s, u, now))
  {
    LookupMember(s.rows, u.Key());
    if Lookup(s.rows, u.Key()).None? {
      forall i | 0 <= i < |s.rows|
        ensures s.rows[i].Key() != u.Key()
      {
        KeysOfMember(s.rows, u.Key());
        assert s.rows[i] in s.rows;
      }
    }
  }

  lemma StoredRow(s: Store, u: Upload, now: Time)
    requires Valid(s) && u.chunks != [] && !AlreadyReady(s, u)
    ensures Stored(s, u, now) in Persist(s, u, now).0.rows
    ensures Lookup(Persist(s, u, now).0.rows, u.Key()) == Some(Stored(s, u, now))
  {
    var s' := Persist(s, u, now).0;
    PersistRows(s, u, now);
    LookupMember(s.rows, u.Key());
    if Lookup(s.rows, u.Key()).Some? {
      var r := Lookup(s.rows, u.Key()).value;
      var i :| 0 <= i < |s.rows| && s.rows[i] == r;
      assert s'.rows[i] == Stored(s, u, now);
    } else {
      assert s'.rows[|s.rows|] == Stored(s, u, now);
    }
    PersistValid(s, u, now);
    LookupUnique(s'.rows, Stored(s, u, now));
  }

  /** Every other row of the new table is an old row of another document, perhaps superseded. */
  lemma Provenance(s: Store, u: Upload, now: Time, r: Row) returns (q: Row)
    requires Valid(s) && u.chunks != [] && !AlreadyReady(s, u)
    requires r in Persist(s, u, now).0.rows && r != Stored(s, u, now)
    ensures q in s.rows && q.Key() != u.Key() && r == Supersede(u, now)(q)
  {
    var s' := Persist(s, u, now).0;
    PersistRows(s, u, now);
    var i :| 0 <= i < |s'.rows| && s'.rows[i] == r;
    q := s.rows[i];
    if q.Key() == u.Key() {
      LookupUnique(s.rows, q);
    }
  }

  /** After an upload that was not already current, the stored document is ready, shows the
      uploaded filename, carries the returned version, is the only ready version its
      uploader can see, and is numbered above every other version the uploader can see. */
  lemma PersistBecomesCurrent(s: Store, u: Upload, now: Time)
    requires Valid(s) && u.chunks != [] && !AlreadyReady(s, u) && OneSource(s, u)
    ensures var (s', result) := Persist(s, u, now);
            var d := Stored(s, u, now);
            && d in s'.rows && d.Key() == u.Key() && IsReady(d) && d.source == u.Origin()
            && d.displayName == u.filename && result.Some? && result.value.version == d.version
            && (forall r :: r in s'.rows && IsVersion(r, u.tenant, u.Origin(), u.groups) && IsReady(r) ==> r == d)
            && (forall r :: r in s'.rows && IsSibling(r, u) ==> r.version < d.version)
  {
    var s' := Persist(s, u, now).0;
    StoredRow(s, u, now);
    LookupMember(s.rows, u.Key());
    FilterMember(SiblingOf(u), s.rows);
    forall r | r in s'.rows && r != Stored(s, u, now)
      ensures IsVersion(r, u.tenant, u.Origin(), u.groups) ==> !IsReady(r)
      ensures IsSibling(r, u) ==> r.version < NextVersion(s.rows, u)
    {
      var q := Provenance(s, u, now, r);
      assert IsSibling(q, u) ==> q in Siblings(s.rows, u);
    }
  }

  /** An upload changes nothing but its own document and the ready siblings that its uploader
      can see, which become superseded and nothing else; and it reports exactly those. */
  lemma PersistSparesOthers(s: Store, u: Upload, now: Time)
    requires Valid(s) && u.chunks != [] && !AlreadyReady(s, u)
    ensures var (s', result) := Persist(s, u, now);
            && (forall q: Row :: q in s.rows && q.Key() != u.Key() ==> Supersede(u, now)(q) in s'.rows)
            && (forall r: Row :: r in s'.rows && r.Key() != u.Key() ==> exists q :: q in s.rows && r == Supersede(u, now)(q))
            && (forall r: Row :: r.Key() != u.Key() && !(IsSibling(r, u) && IsReady(r)) && r in s.rows ==> r in s'.rows)
            && (forall id :: id in result.value.superseded <==>
                  exists r :: r in s.rows && IsSibling(r, u) && IsReady(r) && r.docId == id)
  {
    var s' := Persist(s, u, now).0;
    SupersededMember(s.rows, u);
    forall q | q in s.rows && q.Key() != u.Key() ensures Supersede(u, now)(q) in s'.rows {
      OtherKept(s, u, now, q);
    }
    forall r | r in s'.rows && r.Key() != u.Key() ensures exists q :: q in s.rows && r == Supersede(u, now)(q) {
      LookupMember(s.rows, u.Key());
      var q := Provenance(s, u, now, r);
    }
    forall r | r in s.rows && r.Key() != u.Key() && !(IsSibling(r, u) && IsReady(r)) ensures r in s'.rows {
      assert Supersede(u, now)(r) == r;
    }
  }

  lemma OtherKept(s: Store, u: Upload, now: Time, q: Row)
    requires Valid(s) && u.chunks != [] && !AlreadyReady(s, u) && q in s.rows && q.Key() != u.Key()
    ensures Supersede(u, now)(q) in Persist(s, u, now).0.rows
  {
    PersistRows(s, u, now);
    var i :| 0 <= i < |s.rows| && s.rows[i] == q;
    assert Persist(s, u, now).0.rows[i] == Supersede(u, now)(q);
  }

  lemma SupersededMember(rows: seq<Row>, u: Upload)
    ensures forall id :: id in SupersededIds(rows, u) <==>
              exists r :: r in rows && IsSibling(r, u) && IsReady(r) && r.docId == id
  {
    var hits := Filter(ReadySiblingOf(u), rows);
    FilterMember(ReadySiblingOf(u), rows);
    forall id | exists r :: r in rows && IsSibling(r, u) && IsReady(r) && r.docId == id
      ensures id in SupersededIds(rows, u)
    {
      var r :| r in rows && IsSibling(r, u) && IsReady(r) && r.docId == id;
      var i :| 0 <= i < |hits| && hits[i] == r;
      assert Map(DocIdOf, hits)[i] == id;
    }
    forall id | id in SupersededIds(rows, u)
      ensures exists r :: r in rows && IsSibling(r, u) && IsReady(r) && r.docId == id
    {
      var i :| 0 <= i < |hits| && Map(DocIdOf, hits)[i] == id;
      assert hits[i] in hits;
    }
  }

  /* ---- runs in which every document stays open to its whole tenant ---- */

  predicate OpenCommand(c: Command, sourceOf: DocId -> Source) {
    match c.op
    case DoPersist(u) => (u.acl == None || u.acl == Some([])) && u.Origin() == sourceOf(u.docId)
    case DoUpdate(_, _, acl, _) => acl == None || acl == Some([])
    case _ => true
  }

  /** Versions of a source are numbered apart, and the ready one is the largest. */
  ghost predicate Numbered(q: Row, r: Row) {
    q.tenant == r.tenant && q.source == r.source && q.docId != r.docId ==>
      q.version != r.version && (IsReady(r) ==> !IsReady(q) && q.version < r.version)
  }

  ghost predicate Orderly(s: Store, sourceOf: DocId -> Source) {
    && Valid(s)
    && (forall r :: r in s.rows ==> r.allowedGroups == [] && r.source == sourceOf(r.docId))
    && (forall q, r :: q in s.rows && r in s.rows ==> Numbered(q, r))
  }

  /** In an open store every other version of the source is a sibling, so the new number is
      above all of them and none stays ready. */
  lemma NewRowOrderly(s: Store, u: Upload, now: Time, sourceOf: DocId -> Source, r: Row)
    requires Orderly(s, sourceOf) && OpenCommand(Command(DoPersist(u), now), sourceOf)
    requires u.chunks != [] && !AlreadyReady(s, u)
    requires r in Persist(s, u, now).0.rows
    ensures r.allowedGroups == [] && r.source == sourceOf(r.docId)
    ensures Numbered(r, Stored(s, u, now)) && Numbered(Stored(s, u, now), r)
  {
    OpenAcl(s, u, sourceOf);
    LookupMember(s.rows, u.Key());
    if r != Stored(s, u, now) {
      var q := Provenance(s, u, now, r);
      PersistBecomesCurrent(s, u, now);
    }
  }

  lemma OldRowsOrderly(s: Store, u: Upload, now: Time, sourceOf: DocId -> Source, q: Row, r: Row)
    requires Orderly(s, sourceOf) && u.chunks != [] && !AlreadyReady(s, u)
    requires q in Persist(s, u, now).0.rows && q != Stored(s, u, now)
    requires r in Persist(s, u, now).0.rows && r != Stored(s, u, now)
    ensures Numbered(q, r)
  {
    var q0 := Provenance(s, u, now, q);
    var r0 := Provenance(s, u, now, r);
    assert Numbered(q0, r0);
  }

  lemma NewOrderly(s: Store, u: Upload, now: Time, sourceOf: DocId -> Source)
    requires Orderly(s, sourceOf) && OpenCommand(Command(DoPersist(u), now), sourceOf)
    requires u.chunks != [] && !AlreadyReady(s, u)
    ensures Orderly(Persist(s, u, now).0, sourceOf)
  {
    var rows := Persist(s, u, now).0.rows;
    forall r | r in rows
      ensures r.allowedGroups == [] && r.source == sourceOf(r.docId)
    {
      NewRowOrderly(s, u, now, sourceOf, r);
    }
    forall q, r | q in rows && r in rows
      ensures Numbered(q, r)
    {
      NewRowOrderly(s, u, now, sourceOf, q);
      NewRowOrderly(s, u, now, sourceOf, r);
      if q != Stored(s, u, now) && r != Stored(s, u, now) {
        OldRowsOrderly(s, u, now, sourceOf, q, r);
      }
    }
    PersistValid(s, u, now);
  }

  lemma PersistOrderly(s: Store, u: Upload, now: Time, sourceOf: DocId -> Source)
    requires Orderly(s, sourceOf) && OpenCommand(Command(DoPersist(u), now), sourceOf)
    ensures Orderly(Persist(s, u, now).0, sourceOf)
  {
    if u.chunks == [] {
    } else if AlreadyReady(s, u) {
      EditOrderly(s, Touch(u.Key(), now), sourceOf);
    } else {
      NewOrderly(s, u, now, sourceOf);
    }
  }

  lemma OpenAcl(s: Store, u: Upload, sourceOf: DocId -> Source)
    requires Orderly(s, sourceOf) && (u.acl == None || u.acl == Some([]))
    ensures InheritedAcl(s.rows, u) == []
  {
    var versions := Versions(s.rows, u.tenant, u.Origin(), u.groups);
    FilterMember(VersionOf(u.tenant, u.Origin(), u.groups), s.rows);
    FilterMember(IsReady, versions);
    var current := Filter(IsReady, versions);
    if current != [] {
      assert current[0] in current;
    }
  }

  lemma EditOrderly(s: Store, f: Row -> Row, sourceOf: DocId -> Source)
    requires Orderly(s, sourceOf)
    requires forall r :: f(r).Key() == r.Key() && f(r).source == r.source && f(r).version == r.version && f(r).status == r.status
    requires forall r :: r in s.rows ==> f(r).allowedGroups == []
    ensures Orderly(Edit(s, f), sourceOf)
  {
    ValidEdit(s, f);
    var s' := Edit(s, f);
    forall r | r in s'.rows
      ensures r.allowedGroups == [] && r.source == sourceOf(r.docId)
    {
      var r0 := Edited(s, f, r);
    }
    forall q, r | q in s'.rows && r in s'.rows
      ensures Numbered(q, r)
    {
      var q0 := Edited(s, f, q);
      var r0 := Edited(s, f, r);
      assert Numbered(q0, r0);
    }
  }

  lemma Edited(s: Store, f: Row -> Row, r: Row) returns (r0: Row)
    requires r in Edit(s, f).rows
    ensures r0 in s.rows && r == f(r0)
  {
    var i :| 0 <= i < |s.rows| && Edit(s, f).rows[i] == r;
    r0 := s.rows[i];
  }

  lemma StepOrderly(s: Store, c: Command, sourceOf: DocId -> Source)
    requires Orderly(s, sourceOf) && OpenCommand(c, sourceOf)
    ensures Orderly(Step(s, c).0, sourceOf)
  {
    match c.op
    case DoPersist(u) => PersistOrderly(s, u, c.now, sourceOf);
    case DoMarkChecked(key) => EditOrderly(s, Touch(key, c.now), sourceOf);
    case DoUpdate(key, groups, acl, name) =>
      if GetDocument(s, key, groups).Some? {
        EditOrderly(s, Rewrite(key.tenant, GetDocument(s, key, groups).value.source, groups, acl, name, c.now), sourceOf);
      }
    case DoDelete(key, groups) =>
      StepValid(s, c);
      FilterMember(OtherThan(key), s.rows);
    case _ =>
  }

  /** In every run where no document is restricted to groups, each source has at most one
      ready version, its version numbers are distinct, and the ready one is the largest. */
  lemma {:induction false} OpenRunsOrderly(run: seq<Command>, sourceOf: DocId -> Source)
    requires forall c :: c in run ==> OpenCommand(c, sourceOf)
    ensures Orderly(After(run), sourceOf)
  {
    if run != [] {
      assert run == Init(run) + [Last(run)];
      OpenRunsOrderly(Init(run), sourceOf);
      StepOrderly(After(Init(run)), Last(run), sourceOf);
    }
  }

  /* ---- what an update does ---- */

  /** How a row looks after an update of the source: the given ACL and name, or its own. */
  ghost predicate Updated(r: Row, r': Row, acl: Option<seq<string>>, name: Option<string>, now: Time) {
    && r'.allowedGroups == (match acl case Some(a) => a case None => r.allowedGroups)
    && r'.displayName == (match name case Some(n) => n case None => r.displayName)
    && r'.updatedAt == now
    && r' == r.(allowedGroups := r'.allowedGroups, displayName := r'.displayName, updatedAt := now)
  }

  /** A found update gives every version in the caller's sight the new ACL and name and leaves
      every other row, and all chunks, alone; an update that finds nothing changes nothing. */
  lemma UpdateChanges(s: Store, key: Key, groups: set<string>, acl: Option<seq<string>>, name: Option<string>, now: Time)
    ensures var (s', answer) := UpdateDocument(s, key, groups, acl, name, now);
            && s'.chunks == s.chunks && |s'.rows| == |s.rows|
            && (GetDocument(s, key, groups).None? ==> s' == s && answer == (false, None))
            && (GetDocument(s, key, groups).Some? ==>
                  && answer == (true, GetDocument(s', key, groups))
                  && forall i :: 0 <= i < |s.rows| ==>
                       if IsVersion(s.rows[i], key.tenant, GetDocument(s, key, groups).value.source, groups)
                       then Updated(s.rows[i], s'.rows[i], acl, name, now)
                       else s'.rows[i] == s.rows[i])
  {
  }

  predicate OfSource(r: Row, tenant: string, source: Source) { r.tenant == tenant && r.source == source }

  function NotOfSource(tenant: string, source: Source): Row -> bool { (r: Row) => !OfSource(r, tenant, source) }

  lemma NoneOfSource(s: Store, s': Store, key: Key, groups: set<string>, a: seq<string>, name: Option<string>, now: Time)
    requires GetDocument(s, key, groups).Some? && s' == UpdateDocument(s, key, groups, Some(a), name, now).0
    requires a != [] && forall g :: g in a ==> g !in groups
    ensures forall r :: r in s'.rows && OfSource(r, key.tenant, GetDocument(s, key, groups).value.source) ==>
              r.allowedGroups != [] && forall g :: g in r.allowedGroups ==> g !in groups
  {
    UpdateChanges(s, key, groups, Some(a), name, now);
    var source := GetDocument(s, key, groups).value.source;
    forall r | r in s'.rows && OfSource(r, key.tenant, source)
      ensures r.allowedGroups != [] && forall g :: g in r.allowedGroups ==> g !in groups
    {
      var i :| 0 <= i < |s'.rows| && s'.rows[i] == r;
      assert s.rows[i].tenant == key.tenant && s.rows[i].source == source;
    }
  }

  /** A caller who hands a document to groups that they are not in loses it: the update
      answers without a row, no listing shows any version of it, and reading is as if there
      were none. */
  lemma UpdateLocksOut(s: Store, key: Key, groups: set<string>, a: seq<string>, name: Option<string>, now: Time, all: bool)
    requires GetDocument(s, key, groups).Some?
    requires a != [] && forall g :: g in a ==> g !in groups
    ensures var (s', answer) := UpdateDocument(s, key, groups, Some(a), name, now);
            var source := GetDocument(s, key, groups).value.source;
            && answer == (true, None)
            && (forall r :: r in ListDocuments(s', key.tenant, groups, all) ==> r.source != source)
            && ReadableChunks(s', key.tenant, groups)
               == ReadableChunks(s'.(rows := Filter(NotOfSource(key.tenant, source), s'.rows)), key.tenant, groups)
  {
    var s' := UpdateDocument(s, key, groups, Some(a), name, now).0;
    var source := GetDocument(s, key, groups).value.source;
    UpdateChanges(s, key, groups, Some(a), name, now);
    NoneOfSource(s, s', key, groups, a, name, now);
    LockedRow(s, s', key, groups, source);
    InMemoryStore.ListDocumentsCorrect(s', key.tenant, groups, all);
    FilterAbsorb(NotOfSource(key.tenant, source), Listed(key.tenant, groups, false), s'.rows);
  }

  lemma LockedRow(s: Store, s': Store, key: Key, groups: set<string>, source: Source)
    requires GetDocument(s, key, groups).Some? && source == GetDocument(s, key, groups).value.source
    requires exists acl, name, now :: s' == UpdateDocument(s, key, groups, acl, name, now).0
    requires forall r :: r in s'.rows && OfSource(r, key.tenant, source) ==> !Visible(r, groups)
    ensures GetDocument(s', key, groups) == None
  {
    var acl, name, now :| s' == UpdateDocument(s, key, groups, acl, name, now).0;
    var f := Rewrite(key.tenant, source, groups, acl, name, now);
    FilterMap(HasKey(key), f, s.rows);
    LookupMember(s.rows, key);
    LookupMember(s'.rows, key);
    var hits := Filter(HasKey(key), s.rows);
    assert Lookup(s'.rows, key).value == f(hits[0]);
  }

  /* ---- what an upload stores ---- */

  /** A new document carries what was uploaded and its own or the inherited ACL; uploading the
      bytes of a superseded version again changes only its number, name and times. */
  lemma PersistStores(s: Store, u: Upload, now: Time)
    requires Valid(s) && u.chunks != [] && forall r :: r in s.rows && r.Key() == u.Key() ==> !IsReady(r)
    ensures var s' := Persist(s, u, now).0;
            var d, was := Lookup(s'.rows, u.Key()), Lookup(s.rows, u.Key());
            && d.Some? && d.value.displayName == u.filename && d.value.updatedAt == now && d.value.lastCheckedAt == now
            && (was.None? ==>
                  && s'.chunks == s.chunks[u.Key() := u.chunks] && d.value.chunkCount == |u.chunks|
                  && d.value.sha == u.sha && d.value.contentType == u.contentType && d.value.source == u.Origin()
                  && d.value.allowedGroups == InheritedAcl(s.rows, u) && d.value.createdAt == now
                  && d.value.sourceVersion == u.sourceVersion && d.value.sourceModifiedAt == u.sourceModifiedAt)
            && (was.Some? ==>
                  && s'.chunks == s.chunks
                  && d.value == was.value.(status := Ready, version := d.value.version, displayName := u.filename,
                                           updatedAt := now, lastCheckedAt := now))
  {
    LookupMember(s.rows, u.Key());
    StoredRow(s, u, now);
  }

  /** The bytes of the current version, uploaded again, or a check that found nothing new:
      only the freshness time of that one document moves. */
  lemma CheckTouchesOne(s: Store, key: Key, now: Time)
    ensures var s' := MarkChecked(s, key, now);
            && s'.chunks == s.chunks && |s'.rows| == |s.rows|
            && forall i :: 0 <= i < |s.rows| ==>
                 s'.rows[i] == if s.rows[i].tenant == key.tenant && s.rows[i].docId == key.docId
                               then s.rows[i].(lastCheckedAt := now) else s.rows[i]
  {
  }

  /** Uploading the bytes of a ready version again is such a check, and reports that version. */
  lemma AgainIsACheck(s: Store, u: Upload, now: Time, r: Row)
    requires Valid(s) && u.chunks != [] && r in s.rows && r.Key() == u.Key() && IsReady(r)
    ensures Persist(s, u, now) == (MarkChecked(s, u.Key(), now), Some(PersistResult(u.docId, 0, true, r.version, [])))
  {
    LookupUnique(s.rows, r);
  }

  /** Any other upload with chunks reports the number it stored, and whether it was known before. */
  lemma PersistReports(s: Store, u: Upload, now: Time)
    requires Valid(s) && u.chunks != [] && forall r :: r in s.rows && r.Key() == u.Key() ==> !IsReady(r)
    ensures var (s', res) := Persist(s, u, now);
            var known := exists r :: r in s.rows && r.Key() == u.Key();
            && res.Some? && Lookup(s'.rows, u.Key()).Some?
            && res.value.docId == u.docId && res.value.version == Lookup(s'.rows, u.Key()).value.version
            && res.value.alreadyExisted == known && res.value.chunksWritten == (if known then 0 else |u.chunks|)
  {
    LookupMember(s.rows, u.Key());
    KeysOfMember(s.rows, u.Key());
    StoredRow(s, u, now);
  }

  /** Plain uploads are versions of one document exactly when they share a filename. */
  lemma PlainUploads(a: Upload, b: Upload)
    requires a.explicitSource == None && b.explicitSource == None
    ensures a.Origin() == b.Origin() <==> a.filename == b.filename
  {
  }

  /** A chunk is shown under its document's name, and otherwise as it was stored. */
  lemma ReadableShowsName(s: Store, tenant: string, groups: set<string>, c: Chunk)
    requires c in ReadableChunks(s, tenant, groups)
    ensures exists r, j :: r in s.rows && r.tenant == tenant && Visible(r, groups) && IsReady(r) && r.Key() in s.chunks
              && 0 <= j < |s.chunks[r.Key()]| && c.source == r.displayName
              && c.text == s.chunks[r.Key()][j].text && c.index == s.chunks[r.Key()][j].index && c.page == s.chunks[r.Key()][j].page
  {
    var hits := Filter(Listed(tenant, groups, false), s.rows);
    FilterMember(Listed(tenant, groups, false), s.rows);
    FlattenMember(Map(ChunksOf(s.chunks), hits), c);
    var i :| 0 <= i < |hits| && c in RowChunks(s.chunks, hits[i]);
    var r := hits[i];
    assert r in hits;
    var j :| 0 <= j < |s.chunks[r.Key()]| && RowChunks(s.chunks, r)[j] == c;
  }

  /* ---- which version is the current one ---- */

  predicate ReadyInSight(r: Row, u: Upload) {
    IsReady(r) && r.tenant == u.tenant && r.source == u.Origin() && Visible(r, u.groups)
  }

  predicate FirstInSight(rows: seq<Row>, u: Upload, i: nat) {
    i < |rows| && ReadyInSight(rows[i], u) && forall j :: 0 <= j < i ==> !ReadyInSight(rows[j], u)
  }

  function InSight(rows: seq<Row>, u: Upload): seq<Row> {
    Filter(IsReady, Versions(rows, u.tenant, u.Origin(), u.groups))
  }

  lemma InSightSnoc(rows: seq<Row>, r: Row, u: Upload)
    ensures InSight(rows + [r], u) == InSight(rows, u) + if ReadyInSight(r, u) then [r] else []
  {
    var version := VersionOf(u.tenant, u.Origin(), u.groups);
    FilterConcat(version, rows, [r]);
    FilterConcat(IsReady, Filter(version, rows), Filter(version, [r]));
    FilterOne(version, r);
    FilterOne(IsReady, r);
  }

  lemma {:induction false} InSightEmpty(rows: seq<Row>, u: Upload)
    ensures InSight(rows, u) == [] <==> forall r :: r in rows ==> !ReadyInSight(r, u)
  {
    if rows != [] {
      assert rows == Init(rows) + [Last(rows)];
      InSightSnoc(Init(rows), Last(rows), u);
      InSightEmpty(Init(rows), u);
    }
  }

  lemma InSightFirst(rows: seq<Row>, u: Upload, i: nat)
    requires FirstInSight(rows, u, i)
    ensures InSight(rows, u) != [] && InSight(rows, u)[0] == rows[i]
  {
    var before, after := rows[..i], rows[i + 1..];
    assert rows == before + [rows[i]] + after;
    InSightEmpty(before, u);
    InSightSnoc(before, rows[i], u);
    InSightConcat(before + [rows[i]], after, u);
  }

  lemma InSightConcat(a: seq<Row>, b: seq<Row>, u: Upload)
    ensures InSight(a + b, u) == InSight(a, u) + InSight(b, u)
  {
    var version := VersionOf(u.tenant, u.Origin(), u.groups);
    FilterConcat(version, a, b);
    FilterConcat(IsReady, Filter(version, a), Filter(version, b));
  }

  /** The first ready version in sight is the current one, and an upload that gives no ACL takes
      over that version's; one that gives an ACL gets it. */
  lemma CurrentIsFirst(s: Store, u: Upload)
    ensures CurrentVersion(s, u.tenant, u.Origin(), u.groups) == None <==> forall r :: r in s.rows ==> !ReadyInSight(r, u)
    ensures forall i: nat :: FirstInSight(s.rows, u, i) ==> CurrentVersion(s, u.tenant, u.Origin(), u.groups) == Some(s.rows[i])
    ensures InheritedAcl(s.rows, u)
         == if u.acl.Some? then u.acl.value
            else if CurrentVersion(s, u.tenant, u.Origin(), u.groups).Some?
              then CurrentVersion(s, u.tenant, u.Origin(), u.groups).value.allowedGroups
            else []
  {
    InSightEmpty(s.rows, u);
    forall i: nat | FirstInSight(s.rows, u, i)
      ensures CurrentVersion(s, u.tenant, u.Origin(), u.groups) == Some(s.rows[i])
    {
      InSightFirst(s.rows, u, i);
    }
  }
}
