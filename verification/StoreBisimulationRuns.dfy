/** Step-for-step agreement of the two stores over whole runs. */
module StoreBisimulationRuns {
  import opened Sequences
  import opened Documents
  import opened StoreRuns
  import Mem = MemoryStore
  import opened SqlStore
  import opened StoreBisimulation
  import InMemoryStore

  ghost predicate RowAgrees(q: Option<Row>, r: Option<Row>) {
    match (q, r)
    case (None, None) => true
    case (Some(a), Some(b)) => Core(a) == Core(b)
    case _ => false
  }

  /** The two stores returned the same rows, up to order. */
  ghost predicate SameRows(rows: seq<Row>, docs: set<Row>) {
    && (forall r {:trigger InDocs(docs, r)} :: r in rows ==> InDocs(docs, r))
    && (forall q {:trigger InRows(rows, q)} :: q in docs ==> InRows(rows, q))
  }

  ghost predicate InDocs(docs: set<Row>, r: Row) { exists q :: q in docs && Core(q) == Core(r) }

  ghost predicate InRows(rows: seq<Row>, q: Row) { exists r :: r in rows && Core(q) == Core(r) }

  ghost predicate OutcomeAgrees(o: Outcome, q: SqlOutcome) {
    match (o, q)
    case (Persisted(a), SqlPersisted(b)) => ResultAgrees(a, b)
    case (Updated(f, a), SqlUpdated(g, b)) => f == g && RowAgrees(a, b)
    case (Fetched(a), SqlFetched(b)) => RowAgrees(a, b)
    case (Documents(rows), SqlDocuments(docs)) => SameRows(rows, docs)
    case (Deleted(f), SqlDeleted(g)) => f == g
    case (Chunks(a), SqlChunks(b)) => (set c | c in a) == b
    case (Done, SqlDone) => true
    case _ => false
  }

  /** The ready versions of a source that a caller can see. */
  function ReadyRows(s: Mem.Store, tenant: string, source: Source, groups: set<string>): seq<Row> {
    Filter(IsReady, Mem.Versions(s.rows, tenant, source, groups))
  }

  /** An upload that inherits its ACL does not have to choose between several versions. */
  ghost predicate Unambiguous(s: Mem.Store, c: Command) {
    match c.op
    case DoPersist(u) =>
      u.acl.Some? || u.Key() in Mem.KeysOf(s.rows) || |ReadyRows(s, u.tenant, u.Origin(), u.groups)| <= 1
    case _ => true
  }

  /** A current-version query: the ready version inserted first is the one created last. */
  ghost predicate FirstIsNewest(s: Mem.Store, c: Command) {
    match c.op
    case DoCurrent(tenant, source, groups) =>
      var ready := ReadyRows(s, tenant, source, groups);
      ready == [] || forall q :: q in ready ==> Newer(ready[0], q)
    case _ => true
  }

  lemma ReadyMember(s: Mem.Store, tenant: string, source: Source, groups: set<string>)
    ensures forall r :: r in ReadyRows(s, tenant, source, groups) <==>
              r in s.rows && IsVersion(r, tenant, source, groups) && IsReady(r)
  {
    FilterMember(Mem.VersionOf(tenant, source, groups), s.rows);
    FilterMember(IsReady, Mem.Versions(s.rows, tenant, source, groups));
  }

  lemma ReadyFromSql(s: Mem.Store, t: Table, tenant: string, source: Source, groups: set<string>, q: Row) returns (r: Row)
    requires Agree(s, t) && q in ReadyVersions(t.docs, tenant, source, groups)
    ensures r in ReadyRows(s, tenant, source, groups) && Core(q) == Core(r)
  {
    var k :| k in t.docs && t.docs[k] == q;
    r := RowOf(s, t, k);
    ReadyMember(s, tenant, source, groups);
    assert Core(q).allowedGroups == Core(r).allowedGroups && Core(q).status == Core(r).status;
    assert Core(q).tenant == Core(r).tenant && Core(q).source == Core(r).source;
  }

  lemma ReadyToSql(s: Mem.Store, t: Table, tenant: string, source: Source, groups: set<string>, r: Row)
    requires Agree(s, t) && r in ReadyRows(s, tenant, source, groups)
    ensures r.Key() in t.docs && t.docs[r.Key()] in ReadyVersions(t.docs, tenant, source, groups)
  {
    ReadyMember(s, tenant, source, groups);
    var q := t.docs[r.Key()];
    assert Core(q).allowedGroups == Core(r).allowedGroups && Core(q).status == Core(r).status;
    assert Core(q).tenant == Core(r).tenant && Core(q).source == Core(r).source;
    assert r.Key() in t.docs && IsVersion(t.docs[r.Key()], tenant, source, groups) && IsReady(t.docs[r.Key()]);
  }

  /** With at most one ready version in sight, every query order fetches that one. */
  lemma FetchAgrees(s: Mem.Store, t: Table, tenant: string, source: Source, groups: set<string>,
                    fetched: Option<Row>, before: (Row, Row) -> bool)
    requires Agree(s, t) && |ReadyRows(s, tenant, source, groups)| <= 1
    requires LegalFetch(ReadyVersions(t.docs, tenant, source, groups), fetched, before)
    ensures RowAgrees(Mem.CurrentVersion(s, tenant, source, groups), fetched)
  {
    var ready := ReadyRows(s, tenant, source, groups);
    if fetched.Some? {
      var r := ReadyFromSql(s, t, tenant, source, groups, fetched.value);
      assert ready[0] == r;
    } else if ready != [] {
      assert ready[0] in ready;
      ReadyToSql(s, t, tenant, source, groups, ready[0]);
    }
  }

  lemma LookupAgrees(s: Mem.Store, t: Table, key: Key, groups: set<string>)
    requires Agree(s, t)
    ensures RowAgrees(Mem.GetDocument(s, key, groups), Get(t, key, groups))
  {
    Mem.LookupMember(s.rows, key);
    if key in t.docs {
      var r := RowOf(s, t, key);
      assert Core(r).allowedGroups == Core(t.docs[key]).allowedGroups;
    }
  }

  lemma RewriteAgrees(s: Mem.Store, t: Table, tenant: string, source: Source, groups: set<string>,
                      acl: Option<seq<string>>, name: Option<string>, now: Time)
    requires Agree(s, t)
    ensures Agree(Mem.Edit(s, Mem.Rewrite(tenant, source, groups, acl, name, now)),
                  t.(docs := Update(t.docs, SetColumns(tenant, source, groups, acl, name, now))))
  {
    var f, g := Mem.Rewrite(tenant, source, groups, acl, name, now), SetColumns(tenant, source, groups, acl, name, now);
    forall r | r in s.rows ensures Core(f(r)) == Core(g(t.docs[r.Key()])) {
      RewriteRow(r, t.docs[r.Key()], tenant, source, groups, acl, name, now);
    }
    EditAgrees(s, t, f, g);
  }

  lemma RewriteRow(q: Row, r: Row, tenant: string, source: Source, groups: set<string>,
                   acl: Option<seq<string>>, name: Option<string>, now: Time)
    requires Core(q) == Core(r)
    ensures Core(Mem.Rewrite(tenant, source, groups, acl, name, now)(q))
         == Core(SetColumns(tenant, source, groups, acl, name, now)(r))
  {
    assert Core(q).allowedGroups == Core(r).allowedGroups && Core(q).displayName == Core(r).displayName;
    assert Core(q).tenant == Core(r).tenant && Core(q).source == Core(r).source;
    var a := if acl.Some? then acl.value else q.allowedGroups;
    var n := if name.Some? then name.value else q.displayName;
    assert Core(q.(allowedGroups := a, displayName := n, updatedAt := now)) == Core(q).(allowedGroups := a, displayName := n);
    assert Core(r.(allowedGroups := a, displayName := n, updatedAt := now)) == Core(r).(allowedGroups := a, displayName := n);
  }

  lemma DeleteAgrees(s: Mem.Store, t: Table, key: Key)
    requires Agree(s, t)
    ensures Agree(Mem.Remove(s, key), Table(t.docs - {key}, t.chunks - {key}))
  {
    KeysOfRemove(s.rows, key);
    FilterMember(Mem.OtherThan(key), s.rows);
  }

  lemma ListAgrees(s: Mem.Store, t: Table, tenant: string, groups: set<string>, all: bool)
    requires Agree(s, t)
    ensures SameRows(Mem.ListDocuments(s, tenant, groups, all), Select(t.docs, Selected(tenant, groups, all)))
  {
    InMemoryStore.ListDocumentsCorrect(s, tenant, groups, all);
    var rows, docs := Mem.ListDocuments(s, tenant, groups, all), Select(t.docs, Selected(tenant, groups, all));
    forall r | r in rows
      ensures InDocs(docs, r)
    {
      ListedRow(r, t.docs[r.Key()], tenant, groups, all);
      assert t.docs[r.Key()] in docs;
    }
    forall q | q in docs
      ensures InRows(rows, q)
    {
      var k :| k in t.docs && t.docs[k] == q;
      var r := RowOf(s, t, k);
      ListedRow(r, q, tenant, groups, all);
    }
  }

  lemma ListedRow(q: Row, r: Row, tenant: string, groups: set<string>, all: bool)
    requires Core(q) == Core(r)
    ensures Mem.Listed(tenant, groups, all)(q) == Selected(tenant, groups, all)(r)
    ensures q.displayName == r.displayName
  {
    assert Core(q).allowedGroups == Core(r).allowedGroups && Core(q).status == Core(r).status;
    assert Core(q).tenant == Core(r).tenant && Core(q).displayName == Core(r).displayName;
  }

  /** The rows whose chunks may be read, and their chunks. */
  function ReadableRows(s: Mem.Store, tenant: string, groups: set<string>): seq<Row> {
    Filter(Mem.Listed(tenant, groups, false), s.rows)
  }

  lemma ReadMember(s: Mem.Store, tenant: string, groups: set<string>, c: Chunk)
    ensures c in Mem.ReadableChunks(s, tenant, groups)
       <==> exists r :: r in ReadableRows(s, tenant, groups) && c in Mem.RowChunks(s.chunks, r)
  {
    var hits := ReadableRows(s, tenant, groups);
    var lists := Map(Mem.ChunksOf(s.chunks), hits);
    FlattenMember(lists, c);
    if r :| r in hits && c in Mem.RowChunks(s.chunks, r) {
      var i :| 0 <= i < |hits| && hits[i] == r;
      assert lists[i] == Mem.RowChunks(s.chunks, r);
    }
    if i :| 0 <= i < |lists| && c in lists[i] {
      assert hits[i] in hits;
    }
  }

  lemma ReadAgrees(s: Mem.Store, t: Table, tenant: string, groups: set<string>)
    requires Agree(s, t)
    ensures (set c | c in Mem.ReadableChunks(s, tenant, groups)) == Readable(t, tenant, groups)
  {
    forall c ensures c in Mem.ReadableChunks(s, tenant, groups) <==> c in Readable(t, tenant, groups) {
      ReadMember(s, tenant, groups, c);
      FilterMember(Mem.Listed(tenant, groups, false), s.rows);
      if c in Mem.ReadableChunks(s, tenant, groups) { ReadToSql(s, t, tenant, groups, c); }
      if c in Readable(t, tenant, groups) { ReadFromSql(s, t, tenant, groups, c); }
    }
  }

  lemma ReadToSql(s: Mem.Store, t: Table, tenant: string, groups: set<string>, c: Chunk)
    requires Agree(s, t)
    requires exists r :: r in ReadableRows(s, tenant, groups) && c in Mem.RowChunks(s.chunks, r)
    ensures c in Readable(t, tenant, groups)
  {
    FilterMember(Mem.Listed(tenant, groups, false), s.rows);
    var r :| r in ReadableRows(s, tenant, groups) && c in Mem.RowChunks(s.chunks, r);
    ListedRow(r, t.docs[r.Key()], tenant, groups, false);
    var j :| 0 <= j < |Mem.RowChunks(s.chunks, r)| && Mem.RowChunks(s.chunks, r)[j] == c;
    assert c == UnderName(t.chunks[r.Key()][j], t.docs[r.Key()].displayName);
  }

  lemma ReadFromSql(s: Mem.Store, t: Table, tenant: string, groups: set<string>, c: Chunk)
    requires Agree(s, t) && c in Readable(t, tenant, groups)
    ensures exists r :: r in ReadableRows(s, tenant, groups) && c in Mem.RowChunks(s.chunks, r)
  {
    var k, j :| k in t.docs && k in t.chunks && Selected(tenant, groups, false)(t.docs[k]) && 0 <= j < |t.chunks[k]|
                && c == UnderName(t.chunks[k][j], t.docs[k].displayName);
    var r := RowOf(s, t, k);
    ListedRow(r, t.docs[k], tenant, groups, false);
    FilterMember(Mem.Listed(tenant, groups, false), s.rows);
    assert Mem.RowChunks(s.chunks, r)[j] == c;
  }

  lemma TouchedAgrees(s: Mem.Store, t: Table, key: Key, now: Time)
    requires Agree(s, t)
    ensures Agree(Mem.Edit(s, Mem.Touch(key, now)), t.(docs := Update(t.docs, CheckedNow(key, now))))
  {
    EditAgrees(s, t, Mem.Touch(key, now), CheckedNow(key, now));
  }

  /** A new upload takes the same ACL in both stores. */
  ghost predicate SameAcl(s: Mem.Store, c: SqlCommand) {
    match c.cmd.op
    case DoPersist(u) =>
      u.chunks == [] || u.Key() in Mem.KeysOf(s.rows) || FetchedAcl(u, c.fetched) == Mem.InheritedAcl(s.rows, u)
    case _ => true
  }

  /** An unambiguous ACL is the same ACL. */
  lemma UnambiguousIsSame(s: Mem.Store, t: Table, c: SqlCommand)
    requires Agree(s, t) && Legal(t, c) && Unambiguous(s, c.cmd)
    ensures SameAcl(s, c)
  {
    if c.cmd.op.DoPersist? && c.cmd.op.upload.acl.None? {
      var u := c.cmd.op.upload;
      if u.Key() !in Mem.KeysOf(s.rows) {
        FetchAgrees(s, t, u.tenant, u.Origin(), u.groups, c.fetched, HigherVersion);
        if c.fetched.Some? {
          var r := Mem.CurrentVersion(s, u.tenant, u.Origin(), u.groups).value;
          assert Core(r).allowedGroups == Core(c.fetched.value).allowedGroups;
        }
      }
    }
  }

  ghost predicate AnswersAgree(s: Mem.Store, t: Table, c: SqlCommand) {
    OutcomeAgrees(Step(s, c.cmd).1, SqlStep(t, c).1)
  }

  ghost predicate StoresAgree(s: Mem.Store, t: Table, c: SqlCommand) {
    Agree(Step(s, c.cmd).0, SqlStep(t, c).0)
  }

  lemma UploadAgrees(s: Mem.Store, t: Table, c: SqlCommand, ids: (Source, string) -> DocId)
    requires c.cmd.op.DoPersist? && Agree(s, t) && Injective(ids) && Identified(s, ids) && IdentifiedCommand(c.cmd, ids)
    ensures (StoresAgree(s, t, c) <==> SameAcl(s, c)) && AnswersAgree(s, t, c)
  {
    PersistAgrees(s, t, c.cmd.op.upload, c.fetched, c.cmd.now, ids);
  }

  lemma UpdateAgrees(s: Mem.Store, t: Table, c: SqlCommand)
    requires c.cmd.op.DoUpdate? && Agree(s, t)
    ensures StoresAgree(s, t, c) && AnswersAgree(s, t, c)
  {
    var DoUpdate(key, groups, acl, name) := c.cmd.op;
    LookupAgrees(s, t, key, groups);
    if Get(t, key, groups).Some? {
      var source := Get(t, key, groups).value.source;
      assert source == Core(Get(t, key, groups).value).source == Core(Mem.GetDocument(s, key, groups).value).source;
      RewriteAgrees(s, t, key.tenant, source, groups, acl, name, c.cmd.now);
      LookupAgrees(Mem.Edit(s, Mem.Rewrite(key.tenant, source, groups, acl, name, c.cmd.now)),
                   t.(docs := Update(t.docs, SetColumns(key.tenant, source, groups, acl, name, c.cmd.now))), key, groups);
    }
  }

  lemma RemovalAgrees(s: Mem.Store, t: Table, c: SqlCommand)
    requires c.cmd.op.DoDelete? && Agree(s, t)
    ensures StoresAgree(s, t, c) && AnswersAgree(s, t, c)
  {
    LookupAgrees(s, t, c.cmd.op.key, c.cmd.op.groups);
    DeleteAgrees(s, t, c.cmd.op.key);
  }

  lemma CheckAgrees(s: Mem.Store, t: Table, c: SqlCommand)
    requires c.cmd.op.DoMarkChecked? && Agree(s, t)
    ensures StoresAgree(s, t, c) && AnswersAgree(s, t, c)
  {
    TouchedAgrees(s, t, c.cmd.op.key, c.cmd.now);
  }

  lemma SameRank(q: Row, r: Row)
    requires Core(q) == Core(r)
    ensures q.createdAt == r.createdAt && q.docId == r.docId && q.Key() == r.Key()
  {
    assert Core(q).createdAt == Core(r).createdAt && Core(q).docId == Core(r).docId && Core(q).tenant == Core(r).tenant;
  }

  /** PostgreSQL's row of a ready version. */
  lemma ReadyRowOf(s: Mem.Store, t: Table, tenant: string, source: Source, groups: set<string>, r: Row) returns (q: Row)
    requires Agree(s, t) && r in ReadyRows(s, tenant, source, groups)
    ensures q in ReadyVersions(t.docs, tenant, source, groups) && Core(q) == Core(r)
  {
    ReadyToSql(s, t, tenant, source, groups, r);
    ReadyMember(s, tenant, source, groups);
    q := t.docs[r.Key()];
  }

  /** What PostgreSQL fetches ranks before every ready version. */
  lemma FetchedRanksFirst(s: Mem.Store, t: Table, tenant: string, source: Source, groups: set<string>, f: Row, r: Row)
    requires Agree(s, t) && FirstBy(ReadyVersions(t.docs, tenant, source, groups), f, Newer)
    requires r in ReadyRows(s, tenant, source, groups)
    ensures Newer(f, r)
  {
    var q := ReadyRowOf(s, t, tenant, source, groups, r);
    SameRank(q, r);
  }

  lemma KeyFixesRow(s: Mem.Store, tenant: string, source: Source, groups: set<string>, q: Row, r: Row)
    requires Mem.Valid(s) && q in ReadyRows(s, tenant, source, groups) && r in ReadyRows(s, tenant, source, groups)
    requires q.docId == r.docId
    ensures q == r
  {
    ReadyMember(s, tenant, source, groups);
    Mem.DistinctRows(s.rows, q, r);
  }

  lemma SomeRow<T>(s: seq<T>)
    requires s != []
    ensures s[0] in s
  {
  }

  lemma FoundAgreesIff(s: Mem.Store, t: Table, tenant: string, source: Source, groups: set<string>, f: Row, first: Row)
    requires Agree(s, t) && FirstBy(ReadyVersions(t.docs, tenant, source, groups), f, Newer)
    requires first in ReadyRows(s, tenant, source, groups)
    ensures Core(first) == Core(f) <==> forall q :: q in ReadyRows(s, tenant, source, groups) ==> Newer(first, q)
  {
    if Core(first) == Core(f) {
      SameRank(first, f);
      forall q | q in ReadyRows(s, tenant, source, groups) ensures Newer(first, q) {
        FetchedRanksFirst(s, t, tenant, source, groups, f, q);
      }
    } else {
      var r := ReadyFromSql(s, t, tenant, source, groups, f);
      FetchedRanksFirst(s, t, tenant, source, groups, f, first);
      SameRank(f, r);
      if Newer(first, r) {
        KeyFixesRow(s, tenant, source, groups, first, r);
      }
    }
  }

  /** A current-version query is answered alike if and only if the ready version inserted
      first is also the one created last. */
  lemma CurrentAgreesIff(s: Mem.Store, t: Table, c: SqlCommand)
    requires Agree(s, t) && Legal(t, c) && c.cmd.op.DoCurrent?
    ensures AnswersAgree(s, t, c) <==> FirstIsNewest(s, c.cmd)
  {
    var DoCurrent(tenant, source, groups) := c.cmd.op;
    var ready := ReadyRows(s, tenant, source, groups);
    if c.fetched.Some? {
      var r := ReadyFromSql(s, t, tenant, source, groups, c.fetched.value);
      SomeRow(ready);
      FoundAgreesIff(s, t, tenant, source, groups, c.fetched.value, ready[0]);
    } else if ready != [] {
      SomeRow(ready);
      var q := ReadyRowOf(s, t, tenant, source, groups, ready[0]);
    }
  }

  /** Queries change neither store. */
  lemma QueryAgrees(s: Mem.Store, t: Table, c: SqlCommand)
    requires c.cmd.op.DoCurrent? || c.cmd.op.DoGet? || c.cmd.op.DoList? || c.cmd.op.DoRead?
    requires Agree(s, t) && Legal(t, c)
    ensures StoresAgree(s, t, c) && (AnswersAgree(s, t, c) <==> FirstIsNewest(s, c.cmd))
  {
    match c.cmd.op
    case DoCurrent(tenant, source, groups) => CurrentAgreesIff(s, t, c);
    case DoGet(key, groups) => LookupAgrees(s, t, key, groups);
    case DoList(tenant, groups, all) => ListAgrees(s, t, tenant, groups, all);
    case DoRead(tenant, groups) => ReadAgrees(s, t, tenant, groups);
  }

  /** Every command keeps the stores in agreement, a new upload exactly when it takes the
      same ACL in both; and both answer alike, a current-version query exactly when the
      version inserted first was created last. */
  lemma StepAgrees(s: Mem.Store, t: Table, c: SqlCommand, ids: (Source, string) -> DocId)
    requires Agree(s, t) && Injective(ids) && Identified(s, ids) && IdentifiedCommand(c.cmd, ids) && Legal(t, c)
    ensures StoresAgree(s, t, c) <==> SameAcl(s, c)
    ensures AnswersAgree(s, t, c) <==> FirstIsNewest(s, c.cmd)
  {
    match c.cmd.op
    case DoPersist(_) => UploadAgrees(s, t, c, ids);
    case DoMarkChecked(_) => CheckAgrees(s, t, c);
    case DoUpdate(_, _, _, _) => UpdateAgrees(s, t, c);
    case DoDelete(_, _) => RemovalAgrees(s, t, c);
    case _ => QueryAgrees(s, t, c);
  }

  lemma StepIdentified(s: Mem.Store, c: Command, ids: (Source, string) -> DocId)
    requires Identified(s, ids) && IdentifiedCommand(c, ids)
    ensures Identified(Step(s, c).0, ids)
  {
    match c.op
    case DoPersist(u) =>
      EditIdentified(s, Mem.Touch(u.Key(), c.now), ids);
      EditIdentified(s, Mem.Supersede(u, c.now), ids);
      EditIdentified(Mem.Edit(s, Mem.Supersede(u, c.now)), Mem.Reinstate(u, Mem.NextVersion(s.rows, u), c.now), ids);
    case DoMarkChecked(key) => EditIdentified(s, Mem.Touch(key, c.now), ids);
    case DoUpdate(key, groups, acl, name) =>
      if Mem.GetDocument(s, key, groups).Some? {
        EditIdentified(s, Mem.Rewrite(key.tenant, Mem.GetDocument(s, key, groups).value.source, groups, acl, name, c.now), ids);
      }
    case DoDelete(key, groups) => FilterMember(Mem.OtherThan(key), s.rows);
    case _ =>
  }

  lemma EditIdentified(s: Mem.Store, f: Row -> Row, ids: (Source, string) -> DocId)
    requires Identified(s, ids)
    requires forall r :: f(r).docId == r.docId && f(r).source == r.source && f(r).sha == r.sha
    ensures Identified(Mem.Edit(s, f), ids)
  {
    var rows := Mem.Edit(s, f).rows;
    forall r | r in rows
      ensures r.docId == ids(r.source, r.sha)
    {
      var i :| 0 <= i < |rows| && rows[i] == r;
      assert s.rows[i] in s.rows;
    }
  }

  /* ---- whole runs ---- */

  function Commands(run: seq<SqlCommand>): seq<Command> {
    Map((c: SqlCommand) => c.cmd, run)
  }

  /** Every fetched row is one PostgreSQL may return, and every upload is identified by its
      source and content. */
  ghost predicate LegalRun(run: seq<SqlCommand>, ids: (Source, string) -> DocId) {
    run == [] ||
    (LegalRun(Init(run), ids) && Legal(SqlAfter(Init(run)), Last(run)) && IdentifiedCommand(Last(run).cmd, ids))
  }

  /** Every new upload takes the same ACL in both stores. */
  ghost predicate SameAcls(run: seq<SqlCommand>) {
    run == [] || (SameAcls(Init(run)) && SameAcl(After(Commands(Init(run))), Last(run)))
  }

  /** No inherited ACL is ambiguous. */
  ghost predicate UnambiguousRun(run: seq<SqlCommand>) {
    run == [] || (UnambiguousRun(Init(run)) && Unambiguous(After(Commands(Init(run))), Last(run).cmd))
  }

  /** The stores agree after every prefix of the run. */
  ghost predicate AgreeThroughout(run: seq<SqlCommand>) {
    Agree(After(Commands(run)), SqlAfter(run)) && (run != [] ==> AgreeThroughout(Init(run)))
  }

  lemma {:induction false} RunIdentified(run: seq<SqlCommand>, ids: (Source, string) -> DocId)
    requires LegalRun(run, ids)
    ensures Identified(After(Commands(run)), ids)
  {
    if run != [] {
      RunIdentified(Init(run), ids);
      assert Init(Commands(run)) == Commands(Init(run));
      StepIdentified(After(Commands(Init(run))), Last(run).cmd, ids);
    }
  }

  lemma LastStep(run: seq<SqlCommand>, ids: (Source, string) -> DocId)
    requires run != [] && Injective(ids) && LegalRun(run, ids) && Agree(After(Commands(Init(run))), SqlAfter(Init(run)))
    ensures Agree(After(Commands(run)), SqlAfter(run)) <==> SameAcl(After(Commands(Init(run))), Last(run))
  {
    RunIdentified(Init(run), ids);
    assert Init(Commands(run)) == Commands(Init(run));
    StepAgrees(After(Commands(Init(run))), SqlAfter(Init(run)), Last(run), ids);
  }

  /** The stores agree after every prefix of a run if and only if each new upload takes the
      same ACL in both. */
  lemma {:induction false} RunsAgreeIff(run: seq<SqlCommand>, ids: (Source, string) -> DocId)
    requires Injective(ids) && LegalRun(run, ids)
    ensures AgreeThroughout(run) <==> SameAcls(run)
  {
    if run != [] {
      RunsAgreeIff(Init(run), ids);
      if SameAcls(Init(run)) {
        LastStep(run, ids);
      }
    }
  }

  /** In particular when no inherited ACL is ambiguous: it is given, or at most one ready
      version is visible. */
  lemma {:induction false} RunsAgree(run: seq<SqlCommand>, ids: (Source, string) -> DocId)
    requires Injective(ids) && LegalRun(run, ids) && UnambiguousRun(run)
    ensures SameAcls(run) && AgreeThroughout(run)
  {
    if run != [] {
      RunsAgree(Init(run), ids);
      UnambiguousIsSame(After(Commands(Init(run))), SqlAfter(Init(run)), Last(run));
      LastStep(run, ids);
    }
  }

  /** Bisimulation: over every run whose uploads take the same ACLs, the two stores answer
      each command alike, except exactly the current-version queries for which the version
      inserted first is not the one created last. */
  lemma {:induction false} Bisimulation(run: seq<SqlCommand>, ids: (Source, string) -> DocId, i: nat)
    requires Injective(ids) && LegalRun(run, ids) && SameAcls(run) && i < |run|
    ensures OutcomeAgrees(Outcomes(Commands(run))[i], SqlOutcomes(run)[i])
       <==> FirstIsNewest(After(Commands(run[..i])), run[i].cmd)
  {
    OutcomesInit(run);
    if i < |run| - 1 {
      assert run[..i] == Init(run)[..i];
      Bisimulation(Init(run), ids, i);
    } else {
      assert run[..i] == Init(run);
      LastAnswerAgrees(run, ids);
    }
  }

  lemma OutcomesInit(run: seq<SqlCommand>)
    requires run != []
    ensures Init(Outcomes(Commands(run))) == Outcomes(Commands(Init(run)))
    ensures Init(SqlOutcomes(run)) == SqlOutcomes(Init(run))
  {
    assert Init(Commands(run)) == Commands(Init(run));
  }

  lemma LastAnswers(run: seq<SqlCommand>)
    requires run != []
    ensures Last(Outcomes(Commands(run))) == Step(After(Commands(Init(run))), Last(run).cmd).1
    ensures Last(SqlOutcomes(run)) == SqlStep(SqlAfter(Init(run)), Last(run)).1
  {
    assert Init(Commands(run)) == Commands(Init(run));
  }

  lemma LastAnswerAgrees(run: seq<SqlCommand>, ids: (Source, string) -> DocId)
    requires Injective(ids) && LegalRun(run, ids) && SameAcls(run) && run != []
    ensures OutcomeAgrees(Last(Outcomes(Commands(run))), Last(SqlOutcomes(run)))
       <==> FirstIsNewest(After(Commands(Init(run))), Last(run).cmd)
  {
    LastAnswers(run);
    RunsAgreeIff(Init(run), ids);
    RunIdentified(Init(run), ids);
    StepAgrees(After(Commands(Init(run))), SqlAfter(Init(run)), Last(run), ids);
  }

  /** Why the proviso is needed: when an uploader sees two ready versions with different
      ACLs, the older row with the lower number gives the ACL in memory, the higher number
      gives it in SQL, and the stores part. */
  lemma AmbiguousAclParts(s: Mem.Store, t: Table, c: SqlCommand, ids: (Source, string) -> DocId, older: Row, newer: Row)
    requires Agree(s, t) && Injective(ids) && Identified(s, ids) && IdentifiedCommand(c.cmd, ids) && Legal(t, c)
    requires c.cmd.op.DoPersist?
    requires var u := c.cmd.op.upload;
             && u.acl == None && u.chunks != [] && u.Key() !in t.docs
             && ReadyRows(s, u.tenant, u.Origin(), u.groups) == [older, newer]
    requires older.version < newer.version && older.allowedGroups != newer.allowedGroups
    ensures !Agree(Step(s, c.cmd).0, SqlStep(t, c).0)
  {
    var u := c.cmd.op.upload;
    var ready := ReadyRows(s, u.tenant, u.Origin(), u.groups);
    assert newer in ready;
    ReadyToSql(s, t, u.tenant, u.Origin(), u.groups, newer);
    ReadyMember(s, u.tenant, u.Origin(), u.groups);
    assert Core(t.docs[newer.Key()]).version == Core(newer).version;
    var r := ReadyFromSql(s, t, u.tenant, u.Origin(), u.groups, c.fetched.value);
    assert Core(r).version == Core(c.fetched.value).version && Core(r).allowedGroups == Core(c.fetched.value).allowedGroups;
    assert r == newer;
    PersistAgrees(s, t, u, c.fetched, c.cmd.now, ids);
  }
}
