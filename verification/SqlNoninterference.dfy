/** Tenant isolation of the SQL store: over every legal run, what a tenant is told is what it
    would be told alone. */
module SqlNoninterference {
  import opened Sequences
  import opened Documents
  import opened StoreRuns
  import opened SqlStore
  import opened PostgresStore

  /* ---- both unique indexes hold in every run ---- */

  lemma IndexedInsert(docs: map<Key, Row>, u: Upload, acl: seq<string>, now: Time)
    requires Indexed(docs) && ConflictKey(docs, u) == None && u.Key() !in docs
    ensures Indexed(docs[u.Key() := InsertedRow(u, acl, now)])
  {
    var r := InsertedRow(u, acl, now);
    var docs' := docs[u.Key() := r];
    forall j, k | j in docs' && k in docs' && SameIndex(docs'[j], docs'[k]) ensures j == k {
      assert j in docs ==> !SameContent(docs[j], u);
      assert k in docs ==> !SameContent(docs[k], u);
    }
  }

  lemma IndexedRefresh(docs: map<Key, Row>, k: Key, u: Upload, now: Time)
    requires Indexed(docs) && k in docs
    ensures Indexed(docs[k := Refresh(u, now, docs[k])])
  {
    var docs' := docs[k := Refresh(u, now, docs[k])];
    forall i, j | i in docs' && j in docs' && SameIndex(docs'[i], docs'[j]) ensures i == j {
      assert SameIndex(docs[i], docs[j]);
    }
  }

  lemma PromoteIndexed(t: Table, u: Upload, key: Key, inserted: bool, now: Time)
    requires Indexed(t.docs)
    ensures Indexed(Promote(t, u, key, inserted, now).0.docs)
  {
    var docs := Update(t.docs, SupersedeOthers(u, key.docId, now));
    IndexedUpdate(t.docs, SupersedeOthers(u, key.docId, now));
    IndexedUpdate(docs, Publish(key, NextNumber(docs, u, key.docId), u.filename, now));
  }

  function WithRow(t: Table, key: Key, r: Row): Table { t.(docs := t.docs[key := r]) }

  function WithUpload(t: Table, u: Upload, acl: seq<string>, now: Time): Table {
    Table(t.docs[u.Key() := InsertedRow(u, acl, now)], t.chunks[u.Key() := u.chunks])
  }

  lemma PersistIndexed(t: Table, u: Upload, fetched: Option<Row>, now: Time)
    requires Indexed(t.docs)
    ensures Indexed(Persist(t, u, fetched, now).0.docs)
  {
    if u.chunks != [] {
      match ConflictKey(t.docs, u) {
        case Some(k) =>
          IndexedRefresh(t.docs, k, u, now);
          PromoteIndexed(WithRow(t, k, Refresh(u, now, t.docs[k])), u, k, false, now);
        case None =>
          if u.Key() !in t.docs {
            IndexedInsert(t.docs, u, FetchedAcl(u, fetched), now);
            PromoteIndexed(WithUpload(t, u, FetchedAcl(u, fetched), now), u, u.Key(), true, now);
          }
      }
    }
  }

  lemma StepIndexed(t: Table, c: SqlCommand)
    requires Indexed(t.docs)
    ensures Indexed(SqlStep(t, c).0.docs)
  {
    match c.cmd.op
    case DoPersist(u) => PersistIndexed(t, u, c.fetched, c.cmd.now);
    case DoMarkChecked(key) => IndexedUpdate(t.docs, CheckedNow(key, c.cmd.now));
    case DoUpdate(key, groups, acl, name) =>
      if Get(t, key, groups).Some? {
        IndexedUpdate(t.docs, SetColumns(key.tenant, Get(t, key, groups).value.source, groups, acl, name, c.cmd.now));
      }
    case _ =>
  }

  lemma {:induction false} RunIndexed(run: seq<SqlCommand>)
    ensures Indexed(SqlAfter(run).docs)
  {
    if run != [] {
      RunIndexed(Init(run));
      StepIndexed(SqlAfter(Init(run)), Last(run));
    }
  }

  /* ---- one tenant's part of the tables ---- */

  function Mine(tenant: string, docs: map<Key, Row>): map<Key, Row> {
    map k | k in docs && k.tenant == tenant :: docs[k]
  }

  function View(tenant: string, t: Table): Table {
    Table(Mine(tenant, t.docs), map k | k in t.chunks && k.tenant == tenant :: t.chunks[k])
  }

  lemma MineSelect(tenant: string, docs: map<Key, Row>, where: Row -> bool)
    requires Indexed(docs) && forall r :: where(r) ==> r.tenant == tenant
    ensures Select(Mine(tenant, docs), where) == Select(docs, where)
  {
    forall r | r in Select(docs, where) ensures r in Select(Mine(tenant, docs), where) {
      var k :| k in docs && where(docs[k]) && docs[k] == r;
      assert k in Mine(tenant, docs) && where(Mine(tenant, docs)[k]);
    }
  }

  lemma MineUpdate(tenant: string, docs: map<Key, Row>, f: Row -> Row)
    ensures Update(Mine(tenant, docs), f) == Mine(tenant, Update(docs, f))
  {
  }

  lemma MineForeign(tenant: string, docs: map<Key, Row>, f: Row -> Row)
    requires Indexed(docs) && forall r: Row :: r.tenant == tenant ==> f(r) == r
    ensures Mine(tenant, Update(docs, f)) == Mine(tenant, docs)
  {
  }

  lemma MineConflict(docs: map<Key, Row>, u: Upload)
    requires Indexed(docs)
    ensures ConflictKey(Mine(u.tenant, docs), u) == ConflictKey(docs, u)
  {
    var mine := Mine(u.tenant, docs);
    match ConflictKey(docs, u)
    case Some(k) =>
      assert k in mine && SameContent(mine[k], u);
      var j := ConflictKey(mine, u).value;
      assert SameIndex(docs[j], docs[k]);
    case None =>
  }

  /* ---- a tenant's own command ---- */

  lemma OwnPromote(t: Table, u: Upload, key: Key, inserted: bool, now: Time)
    requires Indexed(t.docs)
    ensures Promote(View(u.tenant, t), u, key, inserted, now)
         == (View(u.tenant, Promote(t, u, key, inserted, now).0), Promote(t, u, key, inserted, now).1)
  {
    var f := SupersedeOthers(u, key.docId, now);
    var docs := Update(t.docs, f);
    assert Select(Mine(u.tenant, t.docs), ReadyOthers(u, key.docId)) == Select(t.docs, ReadyOthers(u, key.docId)) by {
      MineSelect(u.tenant, t.docs, ReadyOthers(u, key.docId));
    }
    assert Update(Mine(u.tenant, t.docs), f) == Mine(u.tenant, docs) by { MineUpdate(u.tenant, t.docs, f); }
    assert NextNumber(Mine(u.tenant, docs), u, key.docId) == NextNumber(docs, u, key.docId) by {
      IndexedUpdate(t.docs, f);
      MineNumber(docs, u, key.docId);
    }
    MineUpdate(u.tenant, docs, Publish(key, NextNumber(docs, u, key.docId), u.filename, now));
  }

  lemma MineNumber(docs: map<Key, Row>, u: Upload, id: DocId)
    requires Indexed(docs)
    ensures NextNumber(Mine(u.tenant, docs), u, id) == NextNumber(docs, u, id)
  {
    MineSelect(u.tenant, docs, OtherVersions(u, id));
  }

  lemma ViewWithRow(tenant: string, t: Table, key: Key, r: Row)
    requires key.tenant == tenant
    ensures View(tenant, WithRow(t, key, r)) == WithRow(View(tenant, t), key, r)
  {
  }

  lemma ViewWithUpload(t: Table, u: Upload, acl: seq<string>, now: Time)
    ensures View(u.tenant, WithUpload(t, u, acl, now)) == WithUpload(View(u.tenant, t), u, acl, now)
  {
  }

  lemma OwnStored(t: Table, u: Upload, fetched: Option<Row>, now: Time, k: Key)
    requires Indexed(t.docs) && u.chunks != [] && ConflictKey(t.docs, u) == Some(k)
    ensures Persist(View(u.tenant, t), u, fetched, now)
         == (View(u.tenant, Persist(t, u, fetched, now).0), Persist(t, u, fetched, now).1)
  {
    MineConflict(t.docs, u);
    assert k.tenant == u.tenant;
    var r := Refresh(u, now, t.docs[k]);
    var t' := WithRow(t, k, r);
    assert View(u.tenant, t') == WithRow(View(u.tenant, t), k, r) by { ViewWithRow(u.tenant, t, k, r); }
    if !IsReady(r) {
      assert Promote(View(u.tenant, t'), u, k, false, now)
          == (View(u.tenant, Promote(t', u, k, false, now).0), Promote(t', u, k, false, now).1) by {
        IndexedRefresh(t.docs, k, u, now);
        OwnPromote(t', u, k, false, now);
      }
    }
  }

  lemma OwnFresh(t: Table, u: Upload, fetched: Option<Row>, now: Time)
    requires Indexed(t.docs) && u.chunks != [] && ConflictKey(t.docs, u) == None && u.Key() !in t.docs
    ensures Persist(View(u.tenant, t), u, fetched, now)
         == (View(u.tenant, Persist(t, u, fetched, now).0), Persist(t, u, fetched, now).1)
  {
    MineConflict(t.docs, u);
    var acl := FetchedAcl(u, fetched);
    ViewWithUpload(t, u, acl, now);
    IndexedInsert(t.docs, u, acl, now);
    OwnPromote(WithUpload(t, u, acl, now), u, u.Key(), true, now);
  }

  lemma OwnPersist(t: Table, u: Upload, fetched: Option<Row>, now: Time)
    requires Indexed(t.docs)
    ensures Persist(View(u.tenant, t), u, fetched, now)
         == (View(u.tenant, Persist(t, u, fetched, now).0), Persist(t, u, fetched, now).1)
  {
    if u.chunks != [] {
      match ConflictKey(t.docs, u) {
        case Some(k) => OwnStored(t, u, fetched, now, k);
        case None =>
          if u.Key() in t.docs {
            MineConflict(t.docs, u);
          } else {
            OwnFresh(t, u, fetched, now);
          }
      }
    }
  }

  lemma OwnUpdate(t: Table, key: Key, groups: set<string>, acl: Option<seq<string>>, name: Option<string>, now: Time)
    ensures UpdateDocument(View(key.tenant, t), key, groups, acl, name, now)
         == (View(key.tenant, UpdateDocument(t, key, groups, acl, name, now).0), UpdateDocument(t, key, groups, acl, name, now).1)
  {
    assert Get(View(key.tenant, t), key, groups) == Get(t, key, groups);
    if Get(t, key, groups).Some? {
      MineUpdate(key.tenant, t.docs, SetColumns(key.tenant, Get(t, key, groups).value.source, groups, acl, name, now));
    }
  }

  lemma OwnRead(t: Table, tenant: string, groups: set<string>)
    requires Indexed(t.docs)
    ensures Readable(View(tenant, t), tenant, groups) == Readable(t, tenant, groups)
  {
    var v, listed := View(tenant, t), Selected(tenant, groups, false);
    forall c | c in Readable(t, tenant, groups) ensures c in Readable(v, tenant, groups) {
      var k, i :| k in t.docs && k in t.chunks && listed(t.docs[k]) && 0 <= i < |t.chunks[k]|
                  && c == UnderName(t.chunks[k][i], t.docs[k].displayName);
      assert k in v.docs && k in v.chunks && v.docs[k] == t.docs[k] && v.chunks[k] == t.chunks[k];
    }
    forall c | c in Readable(v, tenant, groups) ensures c in Readable(t, tenant, groups) {
      var k, i :| k in v.docs && k in v.chunks && listed(v.docs[k]) && 0 <= i < |v.chunks[k]|
                  && c == UnderName(v.chunks[k][i], v.docs[k].displayName);
      assert v.docs[k] == t.docs[k] && v.chunks[k] == t.chunks[k];
    }
  }

  /** A tenant's own command acts on its part of the tables exactly as on the whole. */
  lemma OwnStep(t: Table, c: SqlCommand)
    requires Indexed(t.docs)
    ensures var tenant := c.cmd.op.Tenant();
            SqlStep(View(tenant, t), c) == (View(tenant, SqlStep(t, c).0), SqlStep(t, c).1)
  {
    match c.cmd.op
    case DoPersist(u) => OwnPersist(t, u, c.fetched, c.cmd.now);
    case DoMarkChecked(key) => MineUpdate(key.tenant, t.docs, CheckedNow(key, c.cmd.now));
    case DoUpdate(key, groups, acl, name) => OwnUpdate(t, key, groups, acl, name, c.cmd.now);
    case DoList(tenant, groups, all) => MineSelect(tenant, t.docs, Selected(tenant, groups, all));
    case DoDelete(key, groups) => OwnDelete(t, key, groups);
    case DoRead(tenant, groups) => OwnRead(t, tenant, groups);
    case _ =>
  }

  lemma OwnDelete(t: Table, key: Key, groups: set<string>)
    ensures Get(View(key.tenant, t), key, groups) == Get(t, key, groups)
    ensures View(key.tenant, Table(t.docs - {key}, t.chunks - {key}))
         == Table(View(key.tenant, t).docs - {key}, View(key.tenant, t).chunks - {key})
  {
  }

  /* ---- another tenant's command ---- */

  lemma ForeignPromote(tenant: string, t: Table, u: Upload, key: Key, inserted: bool, now: Time)
    requires Indexed(t.docs) && u.tenant != tenant && key.tenant != tenant
    ensures View(tenant, Promote(t, u, key, inserted, now).0) == View(tenant, t)
  {
    var f := SupersedeOthers(u, key.docId, now);
    var docs := Update(t.docs, f);
    IndexedUpdate(t.docs, f);
    MineForeign(tenant, t.docs, f);
    MineForeign(tenant, docs, Publish(key, NextNumber(docs, u, key.docId), u.filename, now));
  }

  lemma ForeignRow(tenant: string, t: Table, key: Key, r: Row)
    requires key.tenant != tenant
    ensures View(tenant, WithRow(t, key, r)) == View(tenant, t)
  {
  }

  lemma ForeignUpload(tenant: string, t: Table, u: Upload, acl: seq<string>, now: Time)
    requires u.tenant != tenant
    ensures View(tenant, WithUpload(t, u, acl, now)) == View(tenant, t)
  {
  }

  lemma ForeignPersist(tenant: string, t: Table, u: Upload, fetched: Option<Row>, now: Time)
    requires Indexed(t.docs) && u.tenant != tenant
    ensures View(tenant, Persist(t, u, fetched, now).0) == View(tenant, t)
  {
    if u.chunks != [] {
      match ConflictKey(t.docs, u) {
        case Some(k) =>
          var r := Refresh(u, now, t.docs[k]);
          IndexedRefresh(t.docs, k, u, now);
          ForeignRow(tenant, t, k, r);
          ForeignPromote(tenant, WithRow(t, k, r), u, k, false, now);
        case None =>
          if u.Key() !in t.docs {
            var acl := FetchedAcl(u, fetched);
            IndexedInsert(t.docs, u, acl, now);
            ForeignUpload(tenant, t, u, acl, now);
            ForeignPromote(tenant, WithUpload(t, u, acl, now), u, u.Key(), true, now);
          }
      }
    }
  }

  lemma ForeignDelete(tenant: string, t: Table, key: Key)
    requires key.tenant != tenant
    ensures View(tenant, Table(t.docs - {key}, t.chunks - {key})) == View(tenant, t)
  {
  }

  /** Another tenant's command does not change a tenant's part. */
  lemma ForeignStep(tenant: string, t: Table, c: SqlCommand)
    requires Indexed(t.docs) && c.cmd.op.Tenant() != tenant
    ensures View(tenant, SqlStep(t, c).0) == View(tenant, t)
  {
    match c.cmd.op
    case DoPersist(u) => ForeignPersist(tenant, t, u, c.fetched, c.cmd.now);
    case DoMarkChecked(key) => MineForeign(tenant, t.docs, CheckedNow(key, c.cmd.now));
    case DoUpdate(key, groups, acl, name) =>
      if Get(t, key, groups).Some? {
        MineForeign(tenant, t.docs, SetColumns(key.tenant, Get(t, key, groups).value.source, groups, acl, name, c.cmd.now));
      }
    case DoDelete(key, groups) => ForeignDelete(tenant, t, key);
    case _ =>
  }

  /* ---- runs ---- */

  function SentBy(tenant: string): SqlCommand -> bool { (c: SqlCommand) => c.cmd.op.Tenant() == tenant }

  /** Every row that a command fetched is one its query may return. */
  ghost predicate LegalFetches(run: seq<SqlCommand>) {
    run == [] || (LegalFetches(Init(run)) && Legal(SqlAfter(Init(run)), Last(run)))
  }

  /** A fetched row of the whole table is a fetched row of the tenant's own. */
  lemma OwnLegal(t: Table, c: SqlCommand)
    requires Indexed(t.docs)
    ensures Legal(View(c.cmd.op.Tenant(), t), c) <==> Legal(t, c)
  {
    match c.cmd.op
    case DoPersist(u) => OwnReady(t, u.tenant, u.Origin(), u.groups);
    case DoCurrent(tenant, source, groups) => OwnReady(t, tenant, source, groups);
    case _ =>
  }

  lemma OwnReady(t: Table, tenant: string, source: Source, groups: set<string>)
    requires Indexed(t.docs)
    ensures ReadyVersions(View(tenant, t).docs, tenant, source, groups) == ReadyVersions(t.docs, tenant, source, groups)
  {
    MineSelect(tenant, t.docs, (r: Row) => Matches(r, tenant, source, groups) && IsReady(r));
  }

  /** Deleting every other tenant's commands leaves a legal run and the same part of the tables. */
  lemma {:induction false} ViewAfter(tenant: string, run: seq<SqlCommand>)
    requires LegalFetches(run)
    ensures LegalFetches(Filter(SentBy(tenant), run))
    ensures View(tenant, SqlAfter(run)) == SqlAfter(Filter(SentBy(tenant), run))
  {
    if run != [] {
      ViewAfter(tenant, Init(run));
      RunIndexed(Init(run));
      var t, c, own := SqlAfter(Init(run)), Last(run), Filter(SentBy(tenant), Init(run));
      if c.cmd.op.Tenant() == tenant {
        OwnStep(t, c);
        OwnLegal(t, c);
        assert Init(own + [c]) == own;
      } else {
        ForeignStep(tenant, t, c);
        assert own + [] == own;
      }
    }
  }

  /** The answers that one tenant got. */
  function Seen(tenant: string, run: seq<SqlCommand>, answers: seq<SqlOutcome>): seq<SqlOutcome>
    requires |run| == |answers|
  {
    if run == [] then []
    else Seen(tenant, Init(run), Init(answers)) + if Last(run).cmd.op.Tenant() == tenant then [Last(answers)] else []
  }

  /** Noninterference: over every legal run, what a tenant is told is what it would be told if
      nobody else used the store; and that run alone is legal too. */
  lemma {:induction false} SqlNoninterference(tenant: string, run: seq<SqlCommand>)
    requires LegalFetches(run)
    ensures LegalFetches(Filter(SentBy(tenant), run))
    ensures Seen(tenant, run, SqlOutcomes(run)) == SqlOutcomes(Filter(SentBy(tenant), run))
  {
    ViewAfter(tenant, run);
    if run != [] {
      SqlNoninterference(tenant, Init(run));
      AnswersNext(tenant, run);
    }
  }

  lemma AnswersNext(tenant: string, run: seq<SqlCommand>)
    requires run != [] && LegalFetches(run)
    requires Seen(tenant, Init(run), SqlOutcomes(Init(run))) == SqlOutcomes(Filter(SentBy(tenant), Init(run)))
    ensures Seen(tenant, run, SqlOutcomes(run)) == SqlOutcomes(Filter(SentBy(tenant), run))
  {
    var t, c, own := SqlAfter(Init(run)), Last(run), Filter(SentBy(tenant), Init(run));
    assert Init(SqlOutcomes(run)) == SqlOutcomes(Init(run));
    if c.cmd.op.Tenant() == tenant {
      ViewAfter(tenant, Init(run));
      RunIndexed(Init(run));
      OwnStep(t, c);
      assert Init(own + [c]) == own;
    } else {
      assert own + [] == own;
    }
  }
}
