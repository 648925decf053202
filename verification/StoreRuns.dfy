/** Runs of the in-memory store: any interleaving of operations by any tenants. */
module StoreRuns {
  import opened Sequences
  import opened Documents
  import opened MemoryStore

  datatype Op =
    | DoPersist(upload: Upload)
    | DoCurrent(tenant: string, source: Source, groups: set<string>)
    | DoMarkChecked(key: Key)
    | DoUpdate(key: Key, groups: set<string>, acl: Option<seq<string>>, name: Option<string>)
    | DoGet(key: Key, groups: set<string>)
    | DoList(tenant: string, groups: set<string>, includeSuperseded: bool)
    | DoDelete(key: Key, groups: set<string>)
    | DoRead(tenant: string, groups: set<string>)
  {
    function Tenant(): string {
      match this
      case DoPersist(u) => u.tenant
      case DoCurrent(t, _, _) => t
      case DoMarkChecked(k) => k.tenant
      case DoUpdate(k, _, _, _) => k.tenant
      case DoGet(k, _) => k.tenant
      case DoList(t, _, _) => t
      case DoDelete(k, _) => k.tenant
      case DoRead(t, _) => t
    }
  }

  /** An operation and the clock reading it takes. */
  datatype Command = Command(op: Op, now: Time)

  datatype Outcome =
    | Persisted(result: Option<PersistResult>)
    | Updated(found: bool, row: Option<Row>)
    | Fetched(row: Option<Row>)
    | Documents(rows: seq<Row>)
    | Deleted(found: bool)
    | Chunks(chunks: seq<Chunk>)
    | Done

  function Step(s: Store, c: Command): (Store, Outcome) {
    match c.op
    case DoPersist(u) => var (s', r) := Persist(s, u, c.now); (s', Persisted(r))
    case DoCurrent(t, source, groups) => (s, Fetched(CurrentVersion(s, t, source, groups)))
    case DoMarkChecked(key) => (MarkChecked(s, key, c.now), Done)
    case DoUpdate(key, groups, acl, name) =>
      var (s', r) := UpdateDocument(s, key, groups, acl, name, c.now); (s', Updated(r.0, r.1))
    case DoGet(key, groups) => (s, Fetched(GetDocument(s, key, groups)))
    case DoList(t, groups, all) => (s, Outcome.Documents(ListDocuments(s, t, groups, all)))
    case DoDelete(key, groups) => var (s', ok) := DeleteDocument(s, key, groups); (s', Deleted(ok))
    case DoRead(t, groups) => (s, Chunks(ReadableChunks(s, t, groups)))
  }

  /** The store after a run that starts empty. */
  function After(run: seq<Command>): Store {
    if run == [] then EMPTY else Step(After(Init(run)), Last(run)).0
  }

  /** What each command of the run returned. */
  function Outcomes(run: seq<Command>): (o: seq<Outcome>)
    ensures |o| == |run|
  {
    if run == [] then [] else Outcomes(Init(run)) + [Step(After(Init(run)), Last(run)).1]
  }

  /* ---- every reachable store is well formed ---- */

  lemma {:induction false} KeysOfMap(rows: seq<Row>, f: Row -> Row)
    requires forall r :: f(r).Key() == r.Key()
    ensures KeysOf(Map(f, rows)) == KeysOf(rows)
    ensures DistinctKeys(rows) ==> DistinctKeys(Map(f, rows))
  {
    if rows != [] {
      assert Init(Map(f, rows)) == Map(f, Init(rows));
      KeysOfMap(Init(rows), f);
    }
  }

  lemma {:induction false} KeysOfRemove(rows: seq<Row>, key: Key)
    ensures KeysOf(Filter(OtherThan(key), rows)) == KeysOf(rows) - {key}
    ensures DistinctKeys(rows) ==> DistinctKeys(Filter(OtherThan(key), rows))
  {
    if rows != [] {
      KeysOfRemove(Init(rows), key);
      var rest, r := Filter(OtherThan(key), Init(rows)), Last(rows);
      if r.Key() == key {
        assert Filter(OtherThan(key), rows) == rest;
      } else {
        assert Filter(OtherThan(key), rows) == rest + [r];
        assert Init(rest + [r]) == rest && Last(rest + [r]) == r;
      }
    }
  }

  lemma ValidEdit(s: Store, f: Row -> Row)
    requires Valid(s)
    requires forall r :: f(r).Key() == r.Key()
    ensures Valid(Edit(s, f))
  {
    KeysOfMap(s.rows, f);
  }

  lemma ValidAdd(s: Store, r: Row, chunks: seq<Chunk>)
    requires Valid(s) && r.Key() !in KeysOf(s.rows)
    ensures Valid(Add(s, r, chunks))
  {
    assert Init(s.rows + [r]) == s.rows;
  }

  lemma PersistValid(s: Store, u: Upload, now: Time)
    requires Valid(s)
    ensures Valid(Persist(s, u, now).0)
  {
    LookupMember(s.rows, u.Key());
    if AlreadyReady(s, u) {
      ValidEdit(s, Touch(u.Key(), now));
    } else {
      KeysOfMap(s.rows, Supersede(u, now));
      var s1 := Edit(s, Supersede(u, now));
      if Lookup(s.rows, u.Key()).None? {
        ValidAdd(s1, NewRow(u, NextVersion(s.rows, u), InheritedAcl(s.rows, u), now), u.chunks);
      } else {
        ValidEdit(s1, Reinstate(u, NextVersion(s.rows, u), now));
      }
    }
  }

  lemma StepValid(s: Store, c: Command)
    requires Valid(s)
    ensures Valid(Step(s, c).0)
  {
    match c.op
    case DoPersist(u) => PersistValid(s, u, c.now);
    case DoMarkChecked(key) => ValidEdit(s, Touch(key, c.now));
    case DoUpdate(key, groups, acl, name) =>
      if GetDocument(s, key, groups).Some? {
        ValidEdit(s, Rewrite(key.tenant, GetDocument(s, key, groups).value.source, groups, acl, name, c.now));
      }
    case DoDelete(key, groups) => KeysOfRemove(s.rows, key);
    case _ =>
  }

  lemma {:induction false} ReachableValid(run: seq<Command>)
    ensures Valid(After(run))
  {
    if run != [] {
      ReachableValid(Init(run));
      StepValid(After(Init(run)), Last(run));
    }
  }

  /* ---- tenant noninterference ---- */

  /** What a store holds for one tenant. */
  function View(t: string, s: Store): Store {
    Store(Filter(Owned(t), s.rows), map k | k in s.chunks && k.tenant == t :: s.chunks[k])
  }

  function IssuedBy(t: string): Command -> bool { (c: Command) => c.op.Tenant() == t }

  lemma ViewLookup(t: string, s: Store, key: Key)
    requires key.tenant == t
    ensures Lookup(View(t, s).rows, key) == Lookup(s.rows, key)
  {
    FilterAbsorb(Owned(t), HasKey(key), s.rows);
  }

  lemma ViewVersions(t: string, s: Store, source: Source, groups: set<string>)
    ensures Versions(View(t, s).rows, t, source, groups) == Versions(s.rows, t, source, groups)
  {
    FilterAbsorb(Owned(t), VersionOf(t, source, groups), s.rows);
  }

  /** Rewriting rows without moving them between tenants commutes with the view. */
  lemma ViewMap(t: string, s: Store, f: Row -> Row)
    requires forall r :: f(r).tenant == r.tenant
    ensures View(t, Edit(s, f)) == Edit(View(t, s), f)
  {
    FilterMap(Owned(t), f, s.rows);
  }

  /** A rewrite that leaves one tenant's rows alone leaves its view alone. */
  lemma ViewMapForeign(t: string, s: Store, f: Row -> Row)
    requires forall r :: f(r).tenant == r.tenant
    requires forall r: Row :: r.tenant == t ==> f(r) == r
    ensures View(t, Edit(s, f)) == View(t, s)
  {
    ViewMap(t, s, f);
    FilterMember(Owned(t), s.rows);
    MapIdentity(f, View(t, s).rows);
  }

  lemma ViewAppend(t: string, s: Store, r: Row, chunks: seq<Chunk>)
    ensures View(t, Add(s, r, chunks))
         == if r.tenant == t then Add(View(t, s), r, chunks) else View(t, s)
  {
    var added := if r.tenant == t then [r] else [];
    assert Filter(Owned(t), s.rows + [r]) == Filter(Owned(t), s.rows) + added by {
      assert Init(s.rows + [r]) == s.rows;
    }
    assert Filter(Owned(t), s.rows) + [] == Filter(Owned(t), s.rows);
    ViewChunks(t, s.chunks, r.Key(), chunks);
  }

  lemma ViewChunks(t: string, m: map<Key, seq<Chunk>>, key: Key, chunks: seq<Chunk>)
    ensures (map k | k in m[key := chunks] && k.tenant == t :: m[key := chunks][k])
         == var mine := map k | k in m && k.tenant == t :: m[k]; if key.tenant == t then mine[key := chunks] else mine
  {
  }

  lemma ViewDelete(t: string, s: Store, key: Key)
    ensures View(t, Remove(s, key))
         == Remove(View(t, s), key)
  {
    FilterSwap(Owned(t), OtherThan(key), s.rows);
  }

  lemma ViewDeleteForeign(t: string, s: Store, key: Key)
    requires key.tenant != t
    ensures View(t, Remove(s, key)) == View(t, s)
  {
    ViewDelete(t, s, key);
    FilterMember(Owned(t), s.rows);
    FilterAll(OtherThan(key), View(t, s).rows);
    assert View(t, s).chunks - {key} == View(t, s).chunks;
  }

  lemma ViewReadable(t: string, s: Store, groups: set<string>)
    ensures ReadableChunks(View(t, s), t, groups) == ReadableChunks(s, t, groups)
  {
    var listed := Listed(t, groups, false);
    FilterAbsorb(Owned(t), listed, s.rows);
    FilterMember(listed, s.rows);
    forall i | 0 <= i < |Filter(listed, s.rows)|
      ensures RowChunks(View(t, s).chunks, Filter(listed, s.rows)[i]) == RowChunks(s.chunks, Filter(listed, s.rows)[i])
    {
      assert Filter(listed, s.rows)[i] in Filter(listed, s.rows);
    }
    assert Map(ChunksOf(View(t, s).chunks), Filter(listed, s.rows)) == Map(ChunksOf(s.chunks), Filter(listed, s.rows));
  }

  lemma OwnInputs(s: Store, u: Upload)
    ensures var v := View(u.tenant, s);
            && NextVersion(v.rows, u) == NextVersion(s.rows, u)
            && SupersededIds(v.rows, u) == SupersededIds(s.rows, u)
            && InheritedAcl(v.rows, u) == InheritedAcl(s.rows, u)
  {
    FilterAbsorb(Owned(u.tenant), SiblingOf(u), s.rows);
    FilterAbsorb(Owned(u.tenant), ReadySiblingOf(u), s.rows);
    ViewVersions(u.tenant, s, u.Origin(), u.groups);
  }

  lemma OwnNew(s: Store, u: Upload, now: Time)
    ensures PersistNew(View(u.tenant, s), u, now) == View(u.tenant, PersistNew(s, u, now))
  {
    OwnInputs(s, u);
    ViewMap(u.tenant, s, Supersede(u, now));
    ViewAppend(u.tenant, Edit(s, Supersede(u, now)), NewRow(u, NextVersion(s.rows, u), InheritedAcl(s.rows, u), now), u.chunks);
  }

  lemma OwnAgain(s: Store, u: Upload, now: Time)
    ensures PersistAgain(View(u.tenant, s), u, now) == View(u.tenant, PersistAgain(s, u, now))
  {
    OwnInputs(s, u);
    ViewMap(u.tenant, s, Supersede(u, now));
    ViewMap(u.tenant, Edit(s, Supersede(u, now)), Reinstate(u, NextVersion(s.rows, u), now));
  }

  lemma OwnPersist(s: Store, u: Upload, now: Time)
    ensures Persist(View(u.tenant, s), u, now) == (View(u.tenant, Persist(s, u, now).0), Persist(s, u, now).1)
  {
    ViewLookup(u.tenant, s, u.Key());
    if AlreadyReady(s, u) {
      ViewMap(u.tenant, s, Touch(u.Key(), now));
    } else if Lookup(s.rows, u.Key()).None? {
      OwnInputs(s, u);
      OwnNew(s, u, now);
    } else {
      OwnInputs(s, u);
      OwnAgain(s, u, now);
    }
  }

  lemma ForeignPersist(t: string, s: Store, u: Upload, now: Time)
    requires u.tenant != t
    ensures View(t, Persist(s, u, now).0) == View(t, s)
  {
    if AlreadyReady(s, u) {
      ViewMapForeign(t, s, Touch(u.Key(), now));
    } else {
      var s1 := Edit(s, Supersede(u, now));
      ViewMapForeign(t, s, Supersede(u, now));
      if Lookup(s.rows, u.Key()).None? {
        ViewAppend(t, s1, NewRow(u, NextVersion(s.rows, u), InheritedAcl(s.rows, u), now), u.chunks);
      } else {
        ViewMapForeign(t, s1, Reinstate(u, NextVersion(s.rows, u), now));
      }
    }
  }

  lemma OwnUpdate(s: Store, key: Key, groups: set<string>, acl: Option<seq<string>>, name: Option<string>, now: Time)
    ensures UpdateDocument(View(key.tenant, s), key, groups, acl, name, now)
         == (View(key.tenant, UpdateDocument(s, key, groups, acl, name, now).0), UpdateDocument(s, key, groups, acl, name, now).1)
  {
    ViewLookup(key.tenant, s, key);
    if GetDocument(s, key, groups).Some? {
      var f := Rewrite(key.tenant, GetDocument(s, key, groups).value.source, groups, acl, name, now);
      ViewMap(key.tenant, s, f);
      ViewLookup(key.tenant, Edit(s, f), key);
    }
  }

  lemma OwnDelete(s: Store, key: Key, groups: set<string>)
    ensures DeleteDocument(View(key.tenant, s), key, groups)
         == (View(key.tenant, DeleteDocument(s, key, groups).0), DeleteDocument(s, key, groups).1)
  {
    ViewLookup(key.tenant, s, key);
    ViewDelete(key.tenant, s, key);
  }

  lemma OwnCurrent(t: string, s: Store, source: Source, groups: set<string>)
    ensures CurrentVersion(View(t, s), t, source, groups) == CurrentVersion(s, t, source, groups)
  {
    ViewVersions(t, s, source, groups);
  }

  lemma OwnList(t: string, s: Store, groups: set<string>, all: bool)
    ensures ListDocuments(View(t, s), t, groups, all) == ListDocuments(s, t, groups, all)
  {
    FilterAbsorb(Owned(t), Listed(t, groups, all), s.rows);
  }

  /** A tenant's own command acts on its view exactly as on the whole store. */
  lemma OwnStep(s: Store, c: Command)
    ensures var t := c.op.Tenant();
            Step(View(t, s), c) == (View(t, Step(s, c).0), Step(s, c).1)
  {
    var t := c.op.Tenant();
    match c.op
    case DoPersist(u) => OwnPersist(s, u, c.now);
    case DoCurrent(_, source, groups) => OwnCurrent(t, s, source, groups);
    case DoMarkChecked(key) => ViewMap(t, s, Touch(key, c.now));
    case DoUpdate(key, groups, acl, name) => OwnUpdate(s, key, groups, acl, name, c.now);
    case DoGet(key, groups) => ViewLookup(t, s, key);
    case DoList(_, groups, all) => OwnList(t, s, groups, all);
    case DoDelete(key, groups) => OwnDelete(s, key, groups);
    case DoRead(_, groups) => ViewReadable(t, s, groups);
  }

  /** Another tenant's command does not change the view. */
  lemma ForeignStep(t: string, s: Store, c: Command)
    requires c.op.Tenant() != t
    ensures View(t, Step(s, c).0) == View(t, s)
  {
    match c.op
    case DoPersist(u) => ForeignPersist(t, s, u, c.now);
    case DoMarkChecked(key) => ViewMapForeign(t, s, Touch(key, c.now));
    case DoUpdate(key, groups, acl, name) =>
      if GetDocument(s, key, groups).Some? {
        ViewMapForeign(t, s, Rewrite(key.tenant, GetDocument(s, key, groups).value.source, groups, acl, name, c.now));
      }
    case DoDelete(key, groups) => ViewDeleteForeign(t, s, key);
    case _ =>
  }

  /** Deleting every other tenant's commands leaves a tenant with the same view. */
  lemma {:induction false} ViewAfter(t: string, run: seq<Command>)
    ensures View(t, After(run)) == After(Filter(IssuedBy(t), run))
  {
    if run != [] {
      ViewAfter(t, Init(run));
      var s, c := After(Init(run)), Last(run);
      var own := Filter(IssuedBy(t), Init(run));
      if c.op.Tenant() == t {
        OwnStep(s, c);
        assert Init(own + [c]) == own;
      } else {
        ForeignStep(t, s, c);
        assert own + [] == own;
      }
    }
  }

  /** The outcomes that one tenant saw. */
  function Seen(t: string, run: seq<Command>, outcomes: seq<Outcome>): seq<Outcome>
    requires |run| == |outcomes|
  {
    if run == [] then []
    else Seen(t, Init(run), Init(outcomes)) + if Last(run).op.Tenant() == t then [Last(outcomes)] else []
  }

  /** Noninterference: over every run, what a tenant sees (values and order) is what it
      would have seen alone. */
  lemma {:induction false} Noninterference(t: string, run: seq<Command>)
    ensures Seen(t, run, Outcomes(run)) == Outcomes(Filter(IssuedBy(t), run))
  {
    if run != [] {
      Noninterference(t, Init(run));
      var s, c := After(Init(run)), Last(run);
      var own := Filter(IssuedBy(t), Init(run));
      assert Init(Outcomes(run)) == Outcomes(Init(run));
      if c.op.Tenant() == t {
        ViewAfter(t, Init(run));
        OwnStep(s, c);
        assert Init(own + [c]) == own;
      } else {
        assert own + [] == own;
      }
    }
  }
}
