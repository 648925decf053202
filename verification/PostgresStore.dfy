/** The transactions of persistence.py, statement by statement, on tables updated in place. */
module PostgresStore {
  import opened Sequences
  import opened Documents
  import Sql = SqlStore
  import opened StoreRuns

  class PostgresStore {
    var docs: map<Key, Row>
    var chunks: map<Key, seq<Chunk>>

    ghost function Contents(): Sql.Table
      reads this
    {
      Sql.Table(docs, chunks)
    }

    /** The primary key, and the unique index on logical document and content. */
    ghost predicate Valid()
      reads this
    {
      Indexed(docs)
    }

    constructor ()
      ensures Valid() && Contents() == Sql.EMPTY_TABLE
    {
      docs, chunks := map[], map[];
    }

    /** INSERT ... ON CONFLICT DO UPDATE: the row's key, and whether it is new. */
    method Upsert(u: Upload, acl: seq<string>, now: Time) returns (key: Option<Key>, inserted: bool)
      requires Valid()
      modifies this`docs
      ensures Valid()
      ensures Sql.ConflictKey(old(docs), u).Some? ==>
                && key == Sql.ConflictKey(old(docs), u) && !inserted
                && docs == old(docs)[key.value := Sql.Refresh(u, now, old(docs)[key.value])]
      ensures Sql.ConflictKey(old(docs), u).Some? ==>
                var r, was := docs[key.value], old(docs)[key.value];
                && r.updatedAt == r.lastCheckedAt == now && r.status == was.status && r.version == was.version
                && r.sourceVersion == (if u.sourceVersion.Some? then u.sourceVersion else was.sourceVersion)
      ensures Sql.ConflictKey(old(docs), u).None? && u.Key() in old(docs) ==> key.None? && docs == old(docs)
      ensures Sql.ConflictKey(old(docs), u).None? && u.Key() !in old(docs) ==>
                key == Some(u.Key()) && inserted && docs == old(docs)[u.Key() := Sql.InsertedRow(u, acl, now)]
    {
      if exists k :: k in docs && Sql.SameContent(docs[k], u) {
        var k :| k in docs && Sql.SameContent(docs[k], u);
        assert SameIndex(docs[k], docs[Sql.ConflictKey(docs, u).value]);
        docs := docs[k := Sql.Refresh(u, now, docs[k])];
        return Some(k), false;
      }
      if u.Key() in docs {
        return None, false;
      }
      docs := docs[u.Key() := Sql.InsertedRow(u, acl, now)];
      return Some(u.Key()), true;
    }

    method Persist(u: Upload, fetched: Option<Row>, now: Time) returns (result: Option<Sql.SqlResult>)
      requires Valid()
      modifies this
      ensures Valid()
      ensures (Contents(), result) == Sql.Persist(old(Contents()), u, fetched, now)
    {
      if u.chunks == [] {
        return None;
      }
      var key, inserted := Upsert(u, Sql.FetchedAcl(u, fetched), now);
      if key.None? {
        return None;
      }
      if !inserted && docs[key.value].status == Ready {
        return Some(Sql.SqlResult(key.value.docId, 0, true, docs[key.value].version, {}));
      }
      if inserted {
        chunks := chunks[key.value := u.chunks];
      }
      var r := Promote(u, key.value, inserted, now);
      result := Some(r);
    }

    /** Supersede the visible others, number the upload after them, and publish it. */
    method Promote(u: Upload, key: Key, inserted: bool, now: Time) returns (result: Sql.SqlResult)
      requires Valid()
      modifies this`docs
      ensures Valid()
      ensures (Contents(), result) == Sql.Promote(old(Contents()), u, key, inserted, now)
    {
      var superseded := SupersedeOthers(u, key.docId, now);
      var version := NextNumber(u, key.docId);
      Publish(key, version, u.filename, now);
      result := Sql.SqlResult(key.docId, if inserted then |u.chunks| else 0, !inserted, version, superseded);
    }

    /** UPDATE documents SET status = 'superseded' ... RETURNING document_id */
    method SupersedeOthers(u: Upload, id: DocId, now: Time) returns (superseded: set<DocId>)
      requires Valid()
      modifies this`docs
      ensures Valid()
      ensures superseded == Sql.Ids(Sql.Select(old(docs), Sql.ReadyOthers(u, id)))
      ensures docs == Sql.Update(old(docs), Sql.SupersedeOthers(u, id, now))
    {
      superseded := Sql.Ids(Sql.Select(docs, Sql.ReadyOthers(u, id)));
      IndexedUpdate(docs, Sql.SupersedeOthers(u, id, now));
      docs := Sql.Update(docs, Sql.SupersedeOthers(u, id, now));
    }

    method NextNumber(u: Upload, id: DocId) returns (version: nat)
      ensures version == Sql.NextNumber(docs, u, id)
    {
      var max := MaxVersion(Sql.Versioned(Sql.Select(docs, Sql.OtherVersions(u, id))));
      version := max + 1;
    }

    /** UPDATE documents SET status = 'ready', version = ..., source = ... */
    method Publish(key: Key, version: nat, name: string, now: Time)
      requires Valid()
      modifies this`docs
      ensures Valid() && docs == Sql.Update(old(docs), Sql.Publish(key, version, name, now))
    {
      IndexedUpdate(docs, Sql.Publish(key, version, name, now));
      docs := Sql.Update(docs, Sql.Publish(key, version, name, now));
    }

    method UpdateDocument(key: Key, groups: set<string>, acl: Option<seq<string>>, name: Option<string>, now: Time)
      returns (found: bool, row: Option<Row>)
      requires Valid()
      modifies this`docs
      ensures Valid()
      ensures (Contents(), (found, row)) == Sql.UpdateDocument(old(Contents()), key, groups, acl, name, now)
    {
      if key !in docs || !Sql.AclFilter(docs[key].allowedGroups, groups) {
        return false, None;
      }
      IndexedUpdate(docs, Sql.SetColumns(key.tenant, docs[key].source, groups, acl, name, now));
      docs := Sql.Update(docs, Sql.SetColumns(key.tenant, docs[key].source, groups, acl, name, now));
      found, row := true, if Sql.AclFilter(docs[key].allowedGroups, groups) then Some(docs[key]) else None;
    }

    /** DELETE ... WHERE the caller can see the row; its chunks cascade. */
    method DeleteDocument(key: Key, groups: set<string>, now: Time) returns (deleted: bool)
      requires Valid()
      modifies this
      ensures Valid()
      ensures (Contents(), Sql.SqlDeleted(deleted))
           == Sql.SqlStep(old(Contents()), Sql.SqlCommand(Command(DoDelete(key, groups), now), None))
    {
      deleted := key in docs && Sql.AclFilter(docs[key].allowedGroups, groups);
      if deleted {
        docs := docs - {key};
        chunks := chunks - {key};
      }
    }
  }

  ghost predicate Indexed(docs: map<Key, Row>) {
    && (forall k :: k in docs ==> docs[k].Key() == k)
    && (forall j, k :: j in docs && k in docs && SameIndex(docs[j], docs[k]) ==> j == k)
  }

  /** Updates of other columns respect both indexes. */
  lemma IndexedUpdate(docs: map<Key, Row>, f: Row -> Row)
    requires Indexed(docs) && forall r :: f(r).Key() == r.Key() && SameIndex(f(r), r)
    ensures Indexed(Sql.Update(docs, f))
  {
    var docs' := Sql.Update(docs, f);
    forall j, k | j in docs' && k in docs' && SameIndex(docs'[j], docs'[k]) ensures j == k {
      assert SameIndex(docs[j], docs[k]);
    }
  }

  predicate SameIndex(q: Row, r: Row) { q.tenant == r.tenant && q.source == r.source && q.sha == r.sha }

  /** coalesce(max(version), 0) */
  method MaxVersion(versions: set<nat>) returns (max: nat)
    ensures max == Sql.MaxOf(versions)
  {
    max := 0;
    var left := versions;
    while left != {}
      invariant left <= versions
      invariant forall v :: v in versions && v !in left ==> v <= max
      invariant max == 0 || max in versions
      decreases left
    {
      var v :| v in left;
      if v > max {
        max := v;
      }
      left := left - {v};
    }
  }
}
