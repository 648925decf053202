/** persistence.py: the documents and chunks tables, each transaction a sequence of
    statements that select or update sets of rows. Statements that leave the choice of a
    row to ORDER BY take the fetched row as an input, constrained by `Legal`. */
module SqlStore {
  import opened Sequences
  import opened Documents
  import opened StoreRuns

  datatype Table = Table(docs: map<Key, Row>, chunks: map<Key, seq<Chunk>>)

  const EMPTY_TABLE := Table(map[], map[])

  datatype SqlResult = SqlResult(
    docId: DocId, chunksWritten: nat, alreadyExisted: bool, version: nat, superseded: set<DocId>)

  datatype SqlOutcome =
    | SqlPersisted(result: Option<SqlResult>)
    | SqlUpdated(found: bool, row: Option<Row>)
    | SqlFetched(row: Option<Row>)
    | SqlDocuments(rows: set<Row>)
    | SqlDeleted(found: bool)
    | SqlChunks(chunks: set<Chunk>)
    | SqlDone

  /** A command and the row its ORDER BY ... LIMIT 1 query fetched, if it runs one. */
  datatype SqlCommand = SqlCommand(cmd: Command, fetched: Option<Row>)

  /* ---- statements ---- */

  function Select(docs: map<Key, Row>, where: Row -> bool): set<Row> {
    set k | k in docs && where(docs[k]) :: docs[k]
  }

  function Update(docs: map<Key, Row>, f: Row -> Row): map<Key, Row> {
    map k | k in docs :: f(docs[k])
  }

  /** cardinality(allowed_groups) = 0 OR allowed_groups && the caller's groups */
  predicate AclFilter(allowed: seq<string>, groups: set<string>)
    ensures AclFilter(allowed, groups) <==> CanRead(allowed, groups)
  {
    OverlapIff(allowed, groups);
    |allowed| == 0 || (set g | g in allowed) * groups != {}
  }

  lemma OverlapIff(allowed: seq<string>, groups: set<string>)
    ensures (set g | g in allowed) * groups != {} <==> exists g :: g in allowed && g in groups
  {
    var overlap := (set g | g in allowed) * groups;
    if g :| g in allowed && g in groups {
      assert g in overlap;
    }
    if overlap != {} {
      var g :| g in overlap;
    }
  }

  /** WHERE tenant, source and the ACL filter match */
  predicate Matches(r: Row, tenant: string, source: Source, groups: set<string>) {
    r.tenant == tenant && r.source == source && AclFilter(r.allowedGroups, groups)
  }

  function Selected(tenant: string, groups: set<string>, includeSuperseded: bool): Row -> bool {
    (r: Row) => r.tenant == tenant && AclFilter(r.allowedGroups, groups) && (includeSuperseded || r.status == Ready)
  }

  /** VALUES ..., the other columns at their defaults */
  function InsertedRow(u: Upload, acl: seq<string>, now: Time): Row {
    Row(tenant := u.tenant, docId := u.docId, displayName := u.filename, source := u.Origin(), version := 1,
        status := Ready, contentType := u.contentType, sha := u.sha, chunkCount := |u.chunks|, allowedGroups := acl,
        sourceVersion := u.sourceVersion, sourceModifiedAt := u.sourceModifiedAt,
        lastCheckedAt := now, createdAt := now, updatedAt := now)
  }

  function Coalesce<T>(given: Option<T>, column: T): T {
    match given
    case Some(x) => x
    case None => column
  }

  /** UPDATE ... SET allowed_groups = coalesce(...), source = coalesce(...), updated_at = now() */
  function SetColumns(tenant: string, source: Source, groups: set<string>,
                      acl: Option<seq<string>>, name: Option<string>, now: Time): Row -> Row {
    (r: Row) =>
      if !Matches(r, tenant, source, groups) then r
      else r.(allowedGroups := Coalesce(acl, r.allowedGroups), displayName := Coalesce(name, r.displayName), updatedAt := now)
  }

  /** UPDATE ... SET last_checked_at = now() WHERE the key matches */
  function CheckedNow(key: Key, now: Time): Row -> Row {
    (r: Row) => if r.tenant == key.tenant && r.docId == key.docId then r.(lastCheckedAt := now) else r
  }

  /** A chunk joined with its document's name. */
  function UnderName(c: Chunk, name: string): Chunk { Chunk(c.text, c.index, name, c.page) }

  function Versioned(rows: set<Row>): set<nat> { set r | r in rows :: r.version }

  function Ids(rows: set<Row>): set<DocId> { set r | r in rows :: r.docId }

  ghost function MaxOf(s: set<nat>): (m: nat)
    ensures forall x :: x in s ==> x <= m
    ensures if s == {} then m == 0 else m in s
  {
    if s == {} then 0 else
      var x :| x in s;
      var m := MaxOf(s - {x});
      assert s == (s - {x}) + {x};
      if x > m then x else m
  }

  /** The unique index that the INSERT's ON CONFLICT names. */
  predicate SameContent(r: Row, u: Upload) {
    r.tenant == u.tenant && r.source == u.Origin() && r.sha == u.sha
  }

  ghost function ConflictKey(docs: map<Key, Row>, u: Upload): (k: Option<Key>)
    ensures k.Some? ==> k.value in docs && SameContent(docs[k.value], u)
    ensures k.None? ==> forall j :: j in docs ==> !SameContent(docs[j], u)
  {
    if exists k :: k in docs && SameContent(docs[k], u)
    then var k :| k in docs && SameContent(docs[k], u); Some(k)
    else None
  }

  function Refresh(u: Upload, now: Time, r: Row): Row {
    r.(updatedAt := now, lastCheckedAt := now,
       sourceVersion := if u.sourceVersion.Some? then u.sourceVersion else r.sourceVersion)
  }

  function FetchedAcl(u: Upload, fetched: Option<Row>): seq<string> {
    match u.acl
    case Some(acl) => acl
    case None => if fetched.Some? then fetched.value.allowedGroups else []
  }

  /** Another version the uploader can see, apart from document `id`. */
  predicate IsOther(r: Row, u: Upload, id: DocId) {
    Matches(r, u.tenant, u.Origin(), u.groups) && r.docId != id
  }

  function OtherVersions(u: Upload, id: DocId): Row -> bool { (r: Row) => IsOther(r, u, id) }

  function ReadyOthers(u: Upload, id: DocId): Row -> bool { (r: Row) => IsOther(r, u, id) && IsReady(r) }

  function SupersedeOthers(u: Upload, id: DocId, now: Time): Row -> Row {
    (r: Row) => if IsOther(r, u, id) && IsReady(r) then r.(status := Superseded, updatedAt := now) else r
  }

  function Publish(key: Key, version: nat, name: string, now: Time): Row -> Row {
    (r: Row) => if r.Key() == key then r.(status := Ready, version := version, displayName := name, updatedAt := now) else r
  }

  /* ---- transactions ---- */

  /** SELECT coalesce(max(version), 0) over the other visible versions, plus one. */
  ghost function NextNumber(docs: map<Key, Row>, u: Upload, id: DocId): nat {
    MaxOf(Versioned(Select(docs, OtherVersions(u, id)))) + 1
  }

  /** The statements after the INSERT: supersede, number, publish. */
  ghost function Promote(t: Table, u: Upload, key: Key, inserted: bool, now: Time): (Table, SqlResult)
  {
    var superseded := Ids(Select(t.docs, ReadyOthers(u, key.docId)));
    var docs := Update(t.docs, SupersedeOthers(u, key.docId, now));
    var version := NextNumber(docs, u, key.docId);
    (t.(docs := Update(docs, Publish(key, version, u.filename, now))),
     SqlResult(key.docId, if inserted then |u.chunks| else 0, !inserted, version, superseded))
  }

  /** None when the transaction is refused: no chunks, or a primary-key clash. */
  ghost function Persist(t: Table, u: Upload, fetched: Option<Row>, now: Time): (Table, Option<SqlResult>) {
    if u.chunks == [] then (t, None) else
    match ConflictKey(t.docs, u)
    case Some(k) =>
      var r := Refresh(u, now, t.docs[k]);
      var t' := t.(docs := t.docs[k := r]);
      if IsReady(r) then (t', Some(SqlResult(k.docId, 0, true, r.version, {})))
      else var (t'', res) := Promote(t', u, k, false, now); (t'', Some(res))
    case None =>
      if u.Key() in t.docs then (t, None) else
        var t' := Table(t.docs[u.Key() := InsertedRow(u, FetchedAcl(u, fetched), now)], t.chunks[u.Key() := u.chunks]);
        var (t'', res) := Promote(t', u, u.Key(), true, now); (t'', Some(res))
  }

  function Get(t: Table, key: Key, groups: set<string>): Option<Row> {
    if key in t.docs && AclFilter(t.docs[key].allowedGroups, groups) then Some(t.docs[key]) else None
  }

  function UpdateDocument(t: Table, key: Key, groups: set<string>,
                          acl: Option<seq<string>>, name: Option<string>, now: Time): (Table, (bool, Option<Row>)) {
    match Get(t, key, groups)
    case None => (t, (false, None))
    case Some(r) =>
      var t' := t.(docs := Update(t.docs, SetColumns(key.tenant, r.source, groups, acl, name, now)));
      (t', (true, Get(t', key, groups)))
  }

  /** The chunks that the WHERE clause of search_hybrid lets a caller search, under the
      document's current name: ready documents only. */
  function Readable(t: Table, tenant: string, groups: set<string>): set<Chunk> {
    set k, i | k in t.docs && k in t.chunks && Selected(tenant, groups, false)(t.docs[k]) && 0 <= i < |t.chunks[k]|
      :: UnderName(t.chunks[k][i], t.docs[k].displayName)
  }

  ghost function SqlStep(t: Table, c: SqlCommand): (Table, SqlOutcome) {
    var now := c.cmd.now;
    match c.cmd.op
    case DoPersist(u) => var (t', r) := Persist(t, u, c.fetched, now); (t', SqlPersisted(r))
    case DoCurrent(_, _, _) => (t, SqlFetched(c.fetched))
    case DoMarkChecked(key) => (t.(docs := Update(t.docs, CheckedNow(key, now))), SqlDone)
    case DoUpdate(key, groups, acl, name) =>
      var (t', r) := UpdateDocument(t, key, groups, acl, name, now); (t', SqlUpdated(r.0, r.1))
    case DoGet(key, groups) => (t, SqlFetched(Get(t, key, groups)))
    case DoList(tenant, groups, all) => (t, SqlDocuments(Select(t.docs, Selected(tenant, groups, all))))
    case DoDelete(key, groups) =>
      if Get(t, key, groups).None? then (t, SqlDeleted(false))
      else (Table(t.docs - {key}, t.chunks - {key}), SqlDeleted(true))
    case DoRead(tenant, groups) => (t, SqlChunks(Readable(t, tenant, groups)))
  }

  /** `r` comes first among `rows` in the query's order. */
  ghost predicate FirstBy(rows: set<Row>, r: Row, before: (Row, Row) -> bool) {
    r in rows && forall q :: q in rows ==> before(r, q)
  }

  function ReadyVersions(docs: map<Key, Row>, tenant: string, source: Source, groups: set<string>): set<Row> {
    Select(docs, (r: Row) => Matches(r, tenant, source, groups) && IsReady(r))
  }

  /** ORDER BY version DESC */
  predicate HigherVersion(a: Row, b: Row) { a.version >= b.version }

  /** ORDER BY created_at DESC, document_id */
  predicate Newer(a: Row, b: Row) {
    a.createdAt > b.createdAt || (a.createdAt == b.createdAt && a.docId <= b.docId)
  }

  ghost predicate LegalFetch(rows: set<Row>, fetched: Option<Row>, before: (Row, Row) -> bool) {
    match fetched
    case None => rows == {}
    case Some(r) => FirstBy(rows, r, before)
  }

  /** The row handed to a command is one its query may return. */
  ghost predicate Legal(t: Table, c: SqlCommand) {
    match c.cmd.op
    case DoPersist(u) =>
      u.acl.Some? || LegalFetch(ReadyVersions(t.docs, u.tenant, u.Origin(), u.groups), c.fetched, HigherVersion)
    case DoCurrent(tenant, source, groups) => LegalFetch(ReadyVersions(t.docs, tenant, source, groups), c.fetched, Newer)
    case _ => true
  }

  ghost function SqlAfter(run: seq<SqlCommand>): Table {
    if run == [] then EMPTY_TABLE else SqlStep(SqlAfter(Init(run)), Last(run)).0
  }

  /** What each command of the run returned. */
  ghost function SqlOutcomes(run: seq<SqlCommand>): (o: seq<SqlOutcome>)
    ensures |o| == |run|
  {
    if run == [] then [] else SqlOutcomes(Init(run)) + [SqlStep(SqlAfter(Init(run)), Last(run)).1]
  }
}
