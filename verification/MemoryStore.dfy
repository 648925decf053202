/** memory_store.py: the insertion-ordered document table and its chunk map.
    The functions say what each operation does to a value of type `Store`; the class
    performs the same operations by updating its fields. */
module MemoryStore {
  import opened Sequences
  import opened Documents
  import opened Sorting

  datatype Store = Store(rows: seq<Row>, chunks: map<Key, seq<Chunk>>)

  const EMPTY := Store([], map[])

  /* ---- selections ---- */

  function Owned(tenant: string): Row -> bool { (r: Row) => r.tenant == tenant }

  function HasKey(key: Key): Row -> bool { (r: Row) => r.Key() == key }

  function OtherThan(key: Key): Row -> bool { (r: Row) => r.Key() != key }

  function VersionOf(tenant: string, source: Source, groups: set<string>): Row -> bool {
    (r: Row) => IsVersion(r, tenant, source, groups)
  }

  function Versions(rows: seq<Row>, tenant: string, source: Source, groups: set<string>): seq<Row> {
    Filter(VersionOf(tenant, source, groups), rows)
  }

  function Lookup(rows: seq<Row>, key: Key): Option<Row> {
    var hits := Filter(HasKey(key), rows);
    if hits == [] then None else Some(hits[0])
  }

  function MaxVersion(rows: seq<Row>): (m: nat)
    ensures forall r :: r in rows ==> r.version <= m
    ensures m == 0 || exists r :: r in rows && r.version == m
  {
    if rows == [] then 0 else
      var m := MaxVersion(Init(rows));
      assert rows == Init(rows) + [Last(rows)];
      if Last(rows).version > m then Last(rows).version else m
  }

  /* ---- in-place updates, as row rewrites ---- */

  function Touch(key: Key, now: Time): Row -> Row {
    (r: Row) => if r.Key() == key then r.(lastCheckedAt := now) else r
  }

  function Supersede(u: Upload, now: Time): Row -> Row {
    (r: Row) => if IsSibling(r, u) && IsReady(r) then r.(status := Superseded, updatedAt := now) else r
  }

  function Reinstate(u: Upload, version: nat, now: Time): Row -> Row {
    (r: Row) =>
      if r.Key() == u.Key() then
        r.(status := Ready, version := version, displayName := u.filename, updatedAt := now, lastCheckedAt := now)
      else r
  }

  function NewRow(u: Upload, version: nat, acl: seq<string>, now: Time): Row {
    Row(u.tenant, u.docId, u.filename, u.Origin(), version, Ready, u.contentType, u.sha, |u.chunks|,
        acl, u.sourceVersion, u.sourceModifiedAt, now, now, now)
  }

  function Rewrite(tenant: string, source: Source, groups: set<string>,
                   acl: Option<seq<string>>, name: Option<string>, now: Time): Row -> Row {
    (r: Row) =>
      if IsVersion(r, tenant, source, groups) then
        r.(allowedGroups := if acl.Some? then acl.value else r.allowedGroups,
           displayName := if name.Some? then name.value else r.displayName,
           updatedAt := now)
      else r
  }

  /* ---- operations ---- */

  /** The ACL of a new upload: its own, or the one of the first visible ready version. */
  function InheritedAcl(rows: seq<Row>, u: Upload): seq<string> {
    match u.acl
    case Some(acl) => acl
    case None =>
      var current := Filter(IsReady, Versions(rows, u.tenant, u.Origin(), u.groups));
      if current == [] then [] else current[0].allowedGroups
  }

  function SiblingOf(u: Upload): Row -> bool { (r: Row) => IsSibling(r, u) }

  function ReadySiblingOf(u: Upload): Row -> bool { (r: Row) => IsSibling(r, u) && IsReady(r) }

  function DocIdOf(r: Row): DocId { r.docId }

  function Siblings(rows: seq<Row>, u: Upload): seq<Row> {
    Filter(SiblingOf(u), rows)
  }

  function SupersededIds(rows: seq<Row>, u: Upload): seq<DocId> {
    Map(DocIdOf, Filter(ReadySiblingOf(u), rows))
  }

  function NextVersion(rows: seq<Row>, u: Upload): nat {
    MaxVersion(Siblings(rows, u)) + 1
  }

  /** Rewrite every row in place. */
  function Edit(s: Store, f: Row -> Row): Store {
    s.(rows := Map(f, s.rows))
  }

  /** Add one document at the end of the table. */
  function Add(s: Store, r: Row, chunks: seq<Chunk>): Store {
    Store(s.rows + [r], s.chunks[r.Key() := chunks])
  }

  function Remove(s: Store, key: Key): Store {
    Store(Filter(OtherThan(key), s.rows), s.chunks - {key})
  }

  /** The upload is already the current version. */
  predicate AlreadyReady(s: Store, u: Upload) {
    var existing := Lookup(s.rows, u.Key());
    existing.Some? && IsReady(existing.value)
  }

  function PersistNew(s: Store, u: Upload, now: Time): Store {
    Add(Edit(s, Supersede(u, now)), NewRow(u, NextVersion(s.rows, u), InheritedAcl(s.rows, u), now), u.chunks)
  }

  function PersistAgain(s: Store, u: Upload, now: Time): Store {
    Edit(Edit(s, Supersede(u, now)), Reinstate(u, NextVersion(s.rows, u), now))
  }

  /** None when the upload has no chunks, which the store rejects. */
  function Persist(s: Store, u: Upload, now: Time): (Store, Option<PersistResult>) {
    var existing := Lookup(s.rows, u.Key());
    if u.chunks == [] then
      (s, None)
    else if AlreadyReady(s, u) then
      (Edit(s, Touch(u.Key(), now)), Some(PersistResult(u.docId, 0, true, existing.value.version, [])))
    else if existing.None? then
      (PersistNew(s, u, now),
       Some(PersistResult(u.docId, |u.chunks|, false, NextVersion(s.rows, u), SupersededIds(s.rows, u))))
    else
      (PersistAgain(s, u, now),
       Some(PersistResult(u.docId, 0, true, NextVersion(s.rows, u), SupersededIds(s.rows, u))))
  }

  function CurrentVersion(s: Store, tenant: string, source: Source, groups: set<string>): Option<Row> {
    var ready := Filter(IsReady, Versions(s.rows, tenant, source, groups));
    if ready == [] then None else Some(ready[0])
  }

  function MarkChecked(s: Store, key: Key, now: Time): Store {
    Edit(s, Touch(key, now))
  }

  function GetDocument(s: Store, key: Key, groups: set<string>): Option<Row> {
    match Lookup(s.rows, key)
    case Some(r) => if Visible(r, groups) then Some(r) else None
    case None => None
  }

  /** (found, row): the row is None when the new ACL excludes the caller. */
  function UpdateDocument(s: Store, key: Key, groups: set<string>,
                          acl: Option<seq<string>>, name: Option<string>, now: Time): (Store, (bool, Option<Row>)) {
    match GetDocument(s, key, groups)
    case None => (s, (false, None))
    case Some(r) =>
      var s' := Edit(s, Rewrite(key.tenant, r.source, groups, acl, name, now));
      (s', (true, GetDocument(s', key, groups)))
  }

  function DeleteDocument(s: Store, key: Key, groups: set<string>): (Store, bool) {
    if GetDocument(s, key, groups).None? then (s, false)
    else (Remove(s, key), true)
  }

  /** Newest first, ties broken by the larger document id. */
  predicate Before(a: Row, b: Row) {
    a.createdAt > b.createdAt || (a.createdAt == b.createdAt && a.docId >= b.docId)
  }

  function Listed(tenant: string, groups: set<string>, includeSuperseded: bool): Row -> bool {
    (r: Row) => r.tenant == tenant && Visible(r, groups) && (includeSuperseded || IsReady(r))
  }

  function ListDocuments(s: Store, tenant: string, groups: set<string>, includeSuperseded: bool): seq<Row> {
    SortBy(Before, Filter(Listed(tenant, groups, includeSuperseded), s.rows))
  }

  function Renamed(c: Chunk, name: string): Chunk { c.(source := name) }

  function RowChunks(chunks: map<Key, seq<Chunk>>, r: Row): seq<Chunk> {
    if r.Key() in chunks then Map((c: Chunk) => Renamed(c, r.displayName), chunks[r.Key()]) else []
  }

  function ChunksOf(chunks: map<Key, seq<Chunk>>): Row -> seq<Chunk> {
    (r: Row) => RowChunks(chunks, r)
  }

  function ReadableChunks(s: Store, tenant: string, groups: set<string>): seq<Chunk> {
    Flatten(Map(ChunksOf(s.chunks), Filter(Listed(tenant, groups, false), s.rows)))
  }

  /* ---- well-formed stores ---- */

  ghost function KeysOf(rows: seq<Row>): set<Key> {
    if rows == [] then {} else KeysOf(Init(rows)) + {Last(rows).Key()}
  }

  ghost predicate DistinctKeys(rows: seq<Row>) {
    rows == [] || (DistinctKeys(Init(rows)) && Last(rows).Key() !in KeysOf(Init(rows)))
  }

  /** One row per key, and chunks for exactly the stored documents. */
  ghost predicate Valid(s: Store) {
    DistinctKeys(s.rows) && s.chunks.Keys == KeysOf(s.rows)
  }

  lemma {:induction false} KeysOfMember(rows: seq<Row>, key: Key)
    ensures key in KeysOf(rows) <==> exists r :: r in rows && r.Key() == key
  {
    if rows != [] {
      assert rows == Init(rows) + [Last(rows)];
      KeysOfMember(Init(rows), key);
      if Last(rows).Key() == key {
        assert Last(rows) in rows;
      }
    }
  }

  lemma {:induction false} DistinctRows(rows: seq<Row>, q: Row, r: Row)
    requires DistinctKeys(rows) && q in rows && r in rows && q.Key() == r.Key()
    ensures q == r
  {
    assert rows == Init(rows) + [Last(rows)];
    KeysOfMember(Init(rows), q.Key());
    if q in Init(rows) && r in Init(rows) {
      DistinctRows(Init(rows), q, r);
    }
  }

  lemma LookupMember(rows: seq<Row>, key: Key)
    ensures Lookup(rows, key).Some? ==> Lookup(rows, key).value in rows && Lookup(rows, key).value.Key() == key
    ensures Lookup(rows, key).Some? <==> key in KeysOf(rows)
  {
    FilterMember(HasKey(key), rows);
    KeysOfMember(rows, key);
    var hits := Filter(HasKey(key), rows);
    if hits != [] {
      assert hits[0] in hits;
    }
  }

  lemma LookupUnique(rows: seq<Row>, r: Row)
    requires DistinctKeys(rows) && r in rows
    ensures Lookup(rows, r.Key()) == Some(r)
  {
    LookupMember(rows, r.Key());
    KeysOfMember(rows, r.Key());
    DistinctRows(rows, r, Lookup(rows, r.Key()).value);
  }
}
