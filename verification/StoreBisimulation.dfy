/** The in-memory store and the SQL store answer alike, step for step. */
module StoreBisimulation {
  import opened Sequences
  import opened Documents
  import opened StoreRuns
  import Mem = MemoryStore
  import StoreVersions
  import opened SqlStore

  /** Everything but the origin's change marker and the freshness times, which the two
      stores refresh at different moments. */
  function Core(r: Row): Row {
    r.(sourceVersion := None, lastCheckedAt := 0, updatedAt := 0)
  }

  ghost predicate Agree(s: Mem.Store, t: Table) {
    && Mem.Valid(s)
    && s.chunks == t.chunks
    && t.docs.Keys == Mem.KeysOf(s.rows)
    && (forall k :: k in t.docs ==> t.docs[k].Key() == k)
    && (forall r :: r in s.rows ==> r.Key() in t.docs && Core(t.docs[r.Key()]) == Core(r))
  }

  /** A document id is an injective hash of the logical document and the content. */
  ghost predicate Injective(ids: (Source, string) -> DocId) {
    forall a, x, b, y :: ids(a, x) == ids(b, y) ==> a == b && x == y
  }

  ghost predicate Identified(s: Mem.Store, ids: (Source, string) -> DocId) {
    forall r :: r in s.rows ==> r.docId == ids(r.source, r.sha)
  }

  predicate IdentifiedCommand(c: Command, ids: (Source, string) -> DocId) {
    c.op.DoPersist? ==> c.op.upload.docId == ids(c.op.upload.Origin(), c.op.upload.sha)
  }

  /** The in-memory row of a key of the table. */
  lemma RowOf(s: Mem.Store, t: Table, k: Key) returns (r: Row)
    requires Agree(s, t) && k in t.docs
    ensures r in s.rows && r.Key() == k && Core(t.docs[k]) == Core(r) && Mem.Lookup(s.rows, k) == Some(r)
  {
    Mem.KeysOfMember(s.rows, k);
    r :| r in s.rows && r.Key() == k;
    Mem.LookupUnique(s.rows, r);
  }

  /* ---- how related edits keep the stores related ---- */

  lemma EditAgrees(s: Mem.Store, t: Table, f: Row -> Row, g: Row -> Row)
    requires Agree(s, t)
    requires forall r :: f(r).Key() == r.Key() && g(r).Key() == r.Key()
    requires forall r :: r in s.rows ==> Core(f(r)) == Core(g(t.docs[r.Key()]))
    ensures Agree(Mem.Edit(s, f), t.(docs := Update(t.docs, g)))
  {
    KeysOfMap(s.rows, f);
    var rows, docs := Mem.Edit(s, f).rows, Update(t.docs, g);
    assert docs.Keys == t.docs.Keys;
    forall r | r in rows
      ensures r.Key() in docs && Core(docs[r.Key()]) == Core(r)
    {
      var i :| 0 <= i < |rows| && rows[i] == r;
      assert s.rows[i] in s.rows;
    }
  }

  lemma AddAgrees(s: Mem.Store, t: Table, q: Row, r: Row, chunks: seq<Chunk>)
    requires Agree(s, t)
    requires q.Key() == r.Key() && q.Key() !in t.docs && Core(q) == Core(r)
    ensures Agree(Mem.Add(s, q, chunks), Table(t.docs[r.Key() := r], t.chunks[r.Key() := chunks]))
  {
    ValidAdd(s, q, chunks);
    var rows, docs := s.rows + [q], t.docs[r.Key() := r];
    assert docs.Keys == Mem.KeysOf(rows) by { assert Init(rows) == s.rows; }
    forall p | p in rows ensures p.Key() in docs && Core(docs[p.Key()]) == Core(p) {
      if p in s.rows {
        assert p.Key() in t.docs;
      }
    }
  }

  /* ---- persist ---- */

  lemma ConflictIsKey(s: Mem.Store, t: Table, u: Upload, ids: (Source, string) -> DocId)
    requires Agree(s, t) && Injective(ids) && Identified(s, ids) && u.docId == ids(u.Origin(), u.sha)
    ensures ConflictKey(t.docs, u) == if u.Key() in t.docs then Some(u.Key()) else None
  {
    forall k | k in t.docs
      ensures SameContent(t.docs[k], u) <==> k == u.Key()
    {
      var r := RowOf(s, t, k);
    }
  }

  lemma MaxAgrees(rows: seq<Row>, versions: set<nat>)
    requires forall r :: r in rows ==> r.version in versions
    requires forall v :: v in versions ==> exists r :: r in rows && r.version == v
    ensures Mem.MaxVersion(rows) == MaxOf(versions)
  {
  }

  /** Same identity, number and ACL: what the sibling queries look at. */
  predicate SameVersion(q: Row, r: Row) {
    q.tenant == r.tenant && q.docId == r.docId && q.source == r.source && q.version == r.version
    && q.allowedGroups == r.allowedGroups
  }

  /** `docs` lists the old documents, changed at most in status, and the uploaded one. */
  ghost predicate Extends(t: Table, u: Upload, docs: map<Key, Row>) {
    && docs.Keys == t.docs.Keys + {u.Key()} && docs[u.Key()].docId == u.docId
    && forall k :: k in t.docs && k != u.Key() ==> SameVersion(docs[k], t.docs[k])
  }

  lemma SiblingToSql(s: Mem.Store, t: Table, u: Upload, docs: map<Key, Row>, r: Row)
    requires Agree(s, t) && Extends(t, u, docs) && r in s.rows && IsSibling(r, u)
    ensures r.Key() in docs && r.Key() != u.Key() && IsOther(docs[r.Key()], u, u.docId)
    ensures docs[r.Key()].version == r.version
  {
    assert SameVersion(t.docs[r.Key()], r);
  }

  lemma SiblingFromSql(s: Mem.Store, t: Table, u: Upload, docs: map<Key, Row>, k: Key) returns (r: Row)
    requires Agree(s, t) && Extends(t, u, docs) && k in docs && IsOther(docs[k], u, u.docId)
    ensures r in s.rows && r.Key() == k && k != u.Key() && IsSibling(r, u)
    ensures r.version == docs[k].version && r.status == t.docs[k].status
  {
    r := RowOf(s, t, k);
    assert SameVersion(docs[k], t.docs[k]) && SameVersion(t.docs[k], r);
  }

  /** Both stores number the upload alike, whatever the table says about the upload itself. */
  lemma VersionAgrees(s: Mem.Store, t: Table, u: Upload, docs: map<Key, Row>)
    requires Agree(s, t) && Extends(t, u, docs)
    ensures NextNumber(docs, u, u.docId) == Mem.NextVersion(s.rows, u)
  {
    var versions := Versioned(Select(docs, OtherVersions(u, u.docId)));
    forall r | r in Mem.Siblings(s.rows, u) ensures r.version in versions {
      VersionToSql(s, t, u, docs, r);
    }
    forall v | v in versions ensures exists r :: r in Mem.Siblings(s.rows, u) && r.version == v {
      var r := VersionFromSql(s, t, u, docs, v);
    }
    MaxAgrees(Mem.Siblings(s.rows, u), versions);
  }

  lemma VersionToSql(s: Mem.Store, t: Table, u: Upload, docs: map<Key, Row>, r: Row)
    requires Agree(s, t) && Extends(t, u, docs) && r in Mem.Siblings(s.rows, u)
    ensures r.version in Versioned(Select(docs, OtherVersions(u, u.docId)))
  {
    FilterMember(Mem.SiblingOf(u), s.rows);
    SiblingToSql(s, t, u, docs, r);
    assert docs[r.Key()] in Select(docs, OtherVersions(u, u.docId));
  }

  lemma VersionFromSql(s: Mem.Store, t: Table, u: Upload, docs: map<Key, Row>, v: nat) returns (r: Row)
    requires Agree(s, t) && Extends(t, u, docs) && v in Versioned(Select(docs, OtherVersions(u, u.docId)))
    ensures r in Mem.Siblings(s.rows, u) && r.version == v
  {
    var k :| k in docs && IsOther(docs[k], u, u.docId) && docs[k].version == v;
    r := SiblingFromSql(s, t, u, docs, k);
    FilterMember(Mem.SiblingOf(u), s.rows);
  }

  /** The superseded ids agree as sets. */
  lemma SupersededAgrees(s: Mem.Store, t: Table, u: Upload, docs: map<Key, Row>)
    requires Agree(s, t) && Extends(t, u, docs)
    requires forall k :: k in t.docs && k != u.Key() ==> docs[k].status == t.docs[k].status
    ensures Ids(Select(docs, ReadyOthers(u, u.docId))) == set id | id in Mem.SupersededIds(s.rows, u)
  {
    var selected := Select(docs, ReadyOthers(u, u.docId));
    StoreVersions.SupersededMember(s.rows, u);
    forall id | id in Ids(selected)
      ensures id in Mem.SupersededIds(s.rows, u)
    {
      var k :| k in docs && IsOther(docs[k], u, u.docId) && IsReady(docs[k]) && docs[k].docId == id;
      var r := SiblingFromSql(s, t, u, docs, k);
      assert IsReady(r);
    }
    forall id | id in Mem.SupersededIds(s.rows, u)
      ensures id in Ids(selected)
    {
      var r :| r in s.rows && IsSibling(r, u) && IsReady(r) && r.docId == id;
      SiblingToSql(s, t, u, docs, r);
      assert Core(t.docs[r.Key()]).status == Core(r).status;
      assert docs[r.Key()] in selected;
    }
  }

  ghost predicate ResultAgrees(r: Option<PersistResult>, q: Option<SqlResult>) {
    match (r, q)
    case (None, None) => true
    case (Some(a), Some(b)) =>
      && a.docId == b.docId && a.chunksWritten == b.chunksWritten && a.alreadyExisted == b.alreadyExisted
      && a.version == b.version && (set id | id in a.superseded) == b.superseded
    case _ => false
  }

  function RefreshAt(key: Key, u: Upload, now: Time): Row -> Row {
    (r: Row) => if r.Key() == key then Refresh(u, now, r) else r
  }

  lemma RefreshAgrees(s: Mem.Store, t: Table, u: Upload, now: Time)
    requires Agree(s, t) && u.Key() in t.docs
    ensures Agree(s, t.(docs := t.docs[u.Key() := Refresh(u, now, t.docs[u.Key()])]))
  {
    var f := (r: Row) => r;
    forall r | r in s.rows ensures Core(f(r)) == Core(RefreshAt(u.Key(), u, now)(t.docs[r.Key()])) {
      RefreshRow(t.docs[r.Key()], u, now);
    }
    EditAgrees(s, t, f, RefreshAt(u.Key(), u, now));
    MapIdentity(f, s.rows);
    RefreshedDocs(t, u, now);
  }

  lemma RefreshRow(r: Row, u: Upload, now: Time)
    ensures Core(RefreshAt(u.Key(), u, now)(r)) == Core(r)
  {
  }

  lemma RefreshedDocs(t: Table, u: Upload, now: Time)
    requires u.Key() in t.docs && forall k :: k in t.docs ==> t.docs[k].Key() == k
    ensures Update(t.docs, RefreshAt(u.Key(), u, now)) == t.docs[u.Key() := Refresh(u, now, t.docs[u.Key()])]
  {
  }

  /** Re-uploading the bytes of the current version. */
  lemma TouchAgrees(s: Mem.Store, t: Table, u: Upload, now: Time)
    requires Agree(s, t) && u.Key() in t.docs
    ensures Agree(Mem.Edit(s, Mem.Touch(u.Key(), now)), t.(docs := t.docs[u.Key() := Refresh(u, now, t.docs[u.Key()])]))
  {
    forall r | r in s.rows
      ensures Core(Mem.Touch(u.Key(), now)(r)) == Core(RefreshAt(u.Key(), u, now)(t.docs[r.Key()]))
    {
      RefreshRow(t.docs[r.Key()], u, now);
    }
    EditAgrees(s, t, Mem.Touch(u.Key(), now), RefreshAt(u.Key(), u, now));
    RefreshedDocs(t, u, now);
  }

  lemma SupersedeRow(q: Row, r: Row, u: Upload, now: Time)
    requires Core(q) == Core(r)
    ensures Core(Mem.Supersede(u, now)(q)) == Core(SupersedeOthers(u, u.docId, now)(r))
  {
    assert Core(q).allowedGroups == Core(r).allowedGroups && Core(q).status == Core(r).status;
    assert Core(q).tenant == Core(r).tenant && Core(q).source == Core(r).source && Core(q).docId == Core(r).docId;
    assert Core(q.(status := Superseded, updatedAt := now)) == Core(q).(status := Superseded);
    assert Core(r.(status := Superseded, updatedAt := now)) == Core(r).(status := Superseded);
  }

  lemma SupersedeAgrees(s: Mem.Store, t: Table, u: Upload, now: Time)
    requires Agree(s, t)
    ensures Agree(Mem.Edit(s, Mem.Supersede(u, now)), t.(docs := Update(t.docs, SupersedeOthers(u, u.docId, now))))
  {
    forall r | r in s.rows
      ensures Core(Mem.Supersede(u, now)(r)) == Core(SupersedeOthers(u, u.docId, now)(t.docs[r.Key()]))
    {
      SupersedeRow(r, t.docs[r.Key()], u, now);
    }
    EditAgrees(s, t, Mem.Supersede(u, now), SupersedeOthers(u, u.docId, now));
  }

  lemma PublishAgrees(s: Mem.Store, t: Table, u: Upload, version: nat, now: Time)
    requires Agree(s, t)
    ensures Agree(Mem.Edit(s, Mem.Reinstate(u, version, now)),
                  t.(docs := Update(t.docs, Publish(u.Key(), version, u.filename, now))))
  {
    forall r | r in s.rows
      ensures Core(Mem.Reinstate(u, version, now)(r)) == Core(Publish(u.Key(), version, u.filename, now)(t.docs[r.Key()]))
    {
      if r.Key() == u.Key() {
        var q := t.docs[r.Key()];
        assert Core(r.(status := Ready, version := version, displayName := u.filename))
            == Core(r).(status := Ready, version := version, displayName := u.filename);
        assert Core(q.(status := Ready, version := version, displayName := u.filename))
            == Core(q).(status := Ready, version := version, displayName := u.filename);
      }
    }
    EditAgrees(s, t, Mem.Reinstate(u, version, now), Publish(u.Key(), version, u.filename, now));
  }

  /** What the promotion reports, from any table that extends the agreed one. */
  lemma PromoteReports(s: Mem.Store, t: Table, u: Upload, t1: Table, inserted: bool, now: Time)
    requires Agree(s, t) && Extends(t, u, t1.docs)
    requires forall k :: k in t.docs && k != u.Key() ==> t1.docs[k].status == t.docs[k].status
    ensures var (t', q) := Promote(t1, u, u.Key(), inserted, now);
            && q.version == Mem.NextVersion(s.rows, u)
            && q.superseded == (set id | id in Mem.SupersededIds(s.rows, u))
            && t' == t1.(docs := Update(Update(t1.docs, SupersedeOthers(u, u.docId, now)),
                                        Publish(u.Key(), Mem.NextVersion(s.rows, u), u.filename, now)))
  {
    SupersededAgrees(s, t, u, t1.docs);
    assert NextNumber(Update(t1.docs, SupersedeOthers(u, u.docId, now)), u, u.docId) == Mem.NextVersion(s.rows, u) by {
      SupersededExtends(t, u, t1.docs, now);
      VersionAgrees(s, t, u, Update(t1.docs, SupersedeOthers(u, u.docId, now)));
    }
  }

  lemma SupersededExtends(t: Table, u: Upload, docs: map<Key, Row>, now: Time)
    requires Extends(t, u, docs)
    ensures Extends(t, u, Update(docs, SupersedeOthers(u, u.docId, now)))
  {
  }

  /** Reinstating a superseded version. */
  lemma AgainAgrees(s: Mem.Store, t: Table, u: Upload, now: Time)
    requires Agree(s, t) && u.Key() in t.docs
    ensures Agree(Mem.PersistAgain(s, u, now), Promote(t, u, u.Key(), false, now).0)
  {
    PromoteReports(s, t, u, t, false, now);
    SupersedeAgrees(s, t, u, now);
    PublishAgrees(Mem.Edit(s, Mem.Supersede(u, now)), t.(docs := Update(t.docs, SupersedeOthers(u, u.docId, now))),
                  u, Mem.NextVersion(s.rows, u), now);
  }

  function Inserted(t: Table, u: Upload, acl: seq<string>, now: Time): Table {
    Table(t.docs[u.Key() := InsertedRow(u, acl, now)], t.chunks[u.Key() := u.chunks])
  }

  lemma InsertedRows(t: Table, u: Upload, acl: seq<string>, version: nat, now: Time)
    requires u.Key() !in t.docs && forall k :: k in t.docs ==> t.docs[k].Key() == k
    ensures Update(Update(Inserted(t, u, acl, now).docs, SupersedeOthers(u, u.docId, now)),
                   Publish(u.Key(), version, u.filename, now))
         == Update(t.docs, SupersedeOthers(u, u.docId, now))[u.Key() := InsertedRow(u, acl, now).(version := version)]
  {
  }

  /** The table after a new upload: the others superseded, the upload added. */
  lemma NewTable(s: Mem.Store, t: Table, u: Upload, acl: seq<string>, now: Time)
    requires Agree(s, t) && u.Key() !in t.docs
    ensures Promote(Inserted(t, u, acl, now), u, u.Key(), true, now).0
         == Table(Update(t.docs, SupersedeOthers(u, u.docId, now))[u.Key() := InsertedRow(u, acl, now).(version := Mem.NextVersion(s.rows, u))],
                  t.chunks[u.Key() := u.chunks])
  {
    PromoteReports(s, t, u, Inserted(t, u, acl, now), true, now);
    InsertedRows(t, u, acl, Mem.NextVersion(s.rows, u), now);
  }

  /** A new document: the stores agree afterwards exactly when they took the same ACL. */
  lemma NewAgrees(s: Mem.Store, t: Table, u: Upload, acl: seq<string>, now: Time)
    requires Agree(s, t) && u.Key() !in t.docs
    ensures Agree(Mem.PersistNew(s, u, now), Promote(Inserted(t, u, acl, now), u, u.Key(), true, now).0)
       <==> acl == Mem.InheritedAcl(s.rows, u)
  {
    var v := Mem.NextVersion(s.rows, u);
    NewTable(s, t, u, acl, now);
    SupersedeAgrees(s, t, u, now);
    var s1, t1 := Mem.Edit(s, Mem.Supersede(u, now)), t.(docs := Update(t.docs, SupersedeOthers(u, u.docId, now)));
    var mine, theirs := Mem.NewRow(u, v, Mem.InheritedAcl(s.rows, u), now), InsertedRow(u, acl, now).(version := v);
    if acl == mine.allowedGroups {
      AddAgrees(s1, t1, mine, theirs, u.chunks);
    } else {
      AddDiffers(s1, Promote(Inserted(t, u, acl, now), u, u.Key(), true, now).0, mine, theirs, u.chunks);
    }
  }

  lemma AddDiffers(s: Mem.Store, t: Table, q: Row, r: Row, chunks: seq<Chunk>)
    requires q.allowedGroups != r.allowedGroups && q.Key() in t.docs && t.docs[q.Key()] == r
    ensures !Agree(Mem.Add(s, q, chunks), t)
  {
    var rows := Mem.Add(s, q, chunks).rows;
    assert rows[|rows| - 1] == q && q in rows;
    assert Core(q).allowedGroups != Core(r).allowedGroups;
  }

  /** One upload: results always agree, and the stores agree afterwards exactly when the
      upload is refused, repeats a stored document, or takes the same ACL in both. */
  lemma PersistAgrees(s: Mem.Store, t: Table, u: Upload, fetched: Option<Row>, now: Time, ids: (Source, string) -> DocId)
    requires Agree(s, t) && Injective(ids) && Identified(s, ids) && u.docId == ids(u.Origin(), u.sha)
    ensures ResultAgrees(Mem.Persist(s, u, now).1, Persist(t, u, fetched, now).1)
    ensures Agree(Mem.Persist(s, u, now).0, Persist(t, u, fetched, now).0)
       <==> u.chunks == [] || u.Key() in t.docs || FetchedAcl(u, fetched) == Mem.InheritedAcl(s.rows, u)
  {
    if u.chunks != [] {
      ConflictIsKey(s, t, u, ids);
      Mem.LookupMember(s.rows, u.Key());
      if u.Key() in t.docs {
        StoredAgrees(s, t, u, fetched, now);
      } else {
        FreshAgrees(s, t, u, fetched, now);
      }
    }
  }

  lemma FreshAgrees(s: Mem.Store, t: Table, u: Upload, fetched: Option<Row>, now: Time)
    requires Agree(s, t) && u.Key() !in t.docs && u.chunks != [] && ConflictKey(t.docs, u) == None
    requires Mem.Lookup(s.rows, u.Key()) == None
    ensures ResultAgrees(Mem.Persist(s, u, now).1, Persist(t, u, fetched, now).1)
    ensures Agree(Mem.Persist(s, u, now).0, Persist(t, u, fetched, now).0) <==> FetchedAcl(u, fetched) == Mem.InheritedAcl(s.rows, u)
  {
    var acl := FetchedAcl(u, fetched);
    FreshBranches(s, t, u, fetched, acl, now);
    NewAgrees(s, t, u, acl, now);
  }

  lemma FreshBranches(s: Mem.Store, t: Table, u: Upload, fetched: Option<Row>, acl: seq<string>, now: Time)
    requires Agree(s, t) && u.Key() !in t.docs && u.chunks != [] && ConflictKey(t.docs, u) == None
    requires Mem.Lookup(s.rows, u.Key()) == None && acl == FetchedAcl(u, fetched)
    ensures Mem.Persist(s, u, now).0 == Mem.PersistNew(s, u, now)
    ensures Persist(t, u, fetched, now).0 == Promote(Inserted(t, u, acl, now), u, u.Key(), true, now).0
    ensures ResultAgrees(Mem.Persist(s, u, now).1, Persist(t, u, fetched, now).1)
  {
    PromoteReports(s, t, u, Inserted(t, u, acl, now), true, now);
  }

  lemma StoredAgrees(s: Mem.Store, t: Table, u: Upload, fetched: Option<Row>, now: Time)
    requires Agree(s, t) && u.Key() in t.docs && u.chunks != []
    requires ConflictKey(t.docs, u) == Some(u.Key())
    ensures ResultAgrees(Mem.Persist(s, u, now).1, Persist(t, u, fetched, now).1)
    ensures Agree(Mem.Persist(s, u, now).0, Persist(t, u, fetched, now).0)
  {
    var r := RowOf(s, t, u.Key());
    var q := t.docs[u.Key()];
    assert q.status == r.status && q.version == r.version by {
      assert Core(q).status == Core(r).status && Core(q).version == Core(r).version;
    }
    if IsReady(r) {
      TouchAgrees(s, t, u, now);
    } else {
      ReinstatedAgrees(s, t, u, fetched, now, r);
    }
  }

  lemma ReinstatedAgrees(s: Mem.Store, t: Table, u: Upload, fetched: Option<Row>, now: Time, r: Row)
    requires Agree(s, t) && u.Key() in t.docs && u.chunks != []
    requires ConflictKey(t.docs, u) == Some(u.Key())
    requires Mem.Lookup(s.rows, u.Key()) == Some(r) && !IsReady(r) && !IsReady(t.docs[u.Key()])
    ensures ResultAgrees(Mem.Persist(s, u, now).1, Persist(t, u, fetched, now).1)
    ensures Agree(Mem.Persist(s, u, now).0, Persist(t, u, fetched, now).0)
  {
    var t1 := t.(docs := t.docs[u.Key() := Refresh(u, now, t.docs[u.Key()])]);
    RefreshAgrees(s, t, u, now);
    PromoteReports(s, t1, u, t1, false, now);
    AgainAgrees(s, t1, u, now);
    var (t', q) := Promote(t1, u, u.Key(), false, now);
    assert Persist(t, u, fetched, now) == (t', Some(q));
    assert Mem.Persist(s, u, now).0 == Mem.PersistAgain(s, u, now);
  }
}
