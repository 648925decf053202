/** Where the two stores order rows differently, and when that shows: the in-memory store
    takes the first ready version inserted, PostgreSQL the one created last. */
module StoreOrder {
  import opened Sequences
  import opened Sorting
  import opened Documents
  import opened StoreRuns
  import Mem = MemoryStore
  import opened SqlStore
  import opened StoreBisimulation
  import opened StoreBisimulationRuns
  import InMemoryStore

  /* ---- creation times ascend in table order ---- */

  ghost predicate CreatedBefore(rows: seq<Row>, time: Time) {
    forall r :: r in rows ==> r.createdAt < time
  }

  ghost predicate Ascending(rows: seq<Row>) {
    rows == [] || (Ascending(Init(rows)) && CreatedBefore(Init(rows), Last(rows).createdAt))
  }

  lemma AscendingNext(rows: seq<Row>, r: Row)
    requires Ascending(rows) && CreatedBefore(rows, r.createdAt)
    ensures Ascending(rows + [r])
  {
    assert Init(rows + [r]) == rows;
  }

  lemma {:induction false} FilterAscends(p: Row -> bool, rows: seq<Row>)
    requires Ascending(rows)
    ensures Ascending(Filter(p, rows))
  {
    if rows != [] {
      var kept := Filter(p, Init(rows));
      FilterAscends(p, Init(rows));
      if p(Last(rows)) {
        assert CreatedBefore(kept, Last(rows).createdAt) by { FilterMember(p, Init(rows)); }
        AscendingNext(kept, Last(rows));
      } else {
        assert Filter(p, rows) == kept + [] == kept;
      }
    }
  }

  lemma {:induction false} EditAscends(f: Row -> Row, rows: seq<Row>, time: Time)
    requires Ascending(rows) && CreatedBefore(rows, time) && forall r :: f(r).createdAt == r.createdAt
    ensures Ascending(Map(f, rows)) && CreatedBefore(Map(f, rows), time)
  {
    if rows != [] {
      var mapped, last := Map(f, Init(rows)), f(Last(rows));
      assert rows == Init(rows) + [Last(rows)];
      EditAscends(f, Init(rows), Last(rows).createdAt);
      AscendingNext(mapped, last);
      assert Map(f, rows) == mapped + [last];
    }
  }

  lemma PersistAscends(s: Mem.Store, u: Upload, now: Time)
    requires Ascending(s.rows) && CreatedBefore(s.rows, now)
    ensures Ascending(Mem.Persist(s, u, now).0.rows) && CreatedBefore(Mem.Persist(s, u, now).0.rows, now + 1)
  {
    if u.chunks == [] {
      assert Mem.Persist(s, u, now).0 == s;
    } else if Mem.AlreadyReady(s, u) {
      EditAscends(Mem.Touch(u.Key(), now), s.rows, now);
    } else if Mem.Lookup(s.rows, u.Key()).None? {
      NewAscends(s, u, now);
    } else {
      AgainAscends(s, u, now);
    }
  }

  lemma NewAscends(s: Mem.Store, u: Upload, now: Time)
    requires Ascending(s.rows) && CreatedBefore(s.rows, now)
    ensures Ascending(Mem.PersistNew(s, u, now).rows) && CreatedBefore(Mem.PersistNew(s, u, now).rows, now + 1)
  {
    EditAscends(Mem.Supersede(u, now), s.rows, now);
    AscendingNext(Map(Mem.Supersede(u, now), s.rows), Mem.NewRow(u, Mem.NextVersion(s.rows, u), Mem.InheritedAcl(s.rows, u), now));
  }

  lemma AgainAscends(s: Mem.Store, u: Upload, now: Time)
    requires Ascending(s.rows) && CreatedBefore(s.rows, now)
    ensures Ascending(Mem.PersistAgain(s, u, now).rows) && CreatedBefore(Mem.PersistAgain(s, u, now).rows, now + 1)
  {
    EditAscends(Mem.Supersede(u, now), s.rows, now);
    EditAscends(Mem.Reinstate(u, Mem.NextVersion(s.rows, u), now), Map(Mem.Supersede(u, now), s.rows), now);
  }

  lemma StepAscends(s: Mem.Store, c: Command)
    requires Ascending(s.rows) && CreatedBefore(s.rows, c.now)
    ensures Ascending(Step(s, c).0.rows) && CreatedBefore(Step(s, c).0.rows, c.now + 1)
  {
    match c.op
    case DoPersist(u) => PersistAscends(s, u, c.now);
    case DoMarkChecked(key) => EditAscends(Mem.Touch(key, c.now), s.rows, c.now);
    case DoUpdate(key, groups, acl, name) =>
      if Mem.GetDocument(s, key, groups).Some? {
        EditAscends(Mem.Rewrite(key.tenant, Mem.GetDocument(s, key, groups).value.source, groups, acl, name, c.now), s.rows, c.now);
      }
    case DoDelete(key, groups) =>
      FilterAscends(Mem.OtherThan(key), s.rows);
      FilterMember(Mem.OtherThan(key), s.rows);
    case _ =>
  }

  /** Every command reads a later time than the one before. */
  predicate Ticking(run: seq<Command>) {
    |run| < 2 || (Ticking(Init(run)) && Last(Init(run)).now < Last(run).now)
  }

  /** In every run on a strictly increasing clock, rows are stored in order of creation. */
  lemma {:induction false} RunAscends(run: seq<Command>)
    requires Ticking(run)
    ensures Ascending(After(run).rows)
    ensures run != [] ==> CreatedBefore(After(run).rows, Last(run).now + 1)
  {
    if run != [] {
      RunAscends(Init(run));
      StepAscends(After(Init(run)), Last(run));
    }
  }

  lemma ReadyAscends(s: Mem.Store, tenant: string, source: Source, groups: set<string>)
    requires Ascending(s.rows)
    ensures Ascending(ReadyRows(s, tenant, source, groups))
  {
    FilterAscends(Mem.VersionOf(tenant, source, groups), s.rows);
    FilterAscends(IsReady, Mem.Versions(s.rows, tenant, source, groups));
  }

  /* ---- the current version ---- */

  /** A query for the current version finds at most one. */
  ghost predicate OneAnswer(s: Mem.Store, c: Command) {
    match c.op
    case DoCurrent(tenant, source, groups) => |ReadyRows(s, tenant, source, groups)| <= 1
    case _ => true
  }

  /** With rows in order of creation, the first version is the newest only if it is the only one. */
  lemma NewestIsOnly(s: Mem.Store, c: Command)
    requires Ascending(s.rows)
    ensures FirstIsNewest(s, c) <==> OneAnswer(s, c)
  {
    if c.op.DoCurrent? {
      var ready := ReadyRows(s, c.op.tenant, c.op.source, c.op.groups);
      ReadyAscends(s, c.op.tenant, c.op.source, c.op.groups);
      FirstIsOnly(ready);
    }
  }

  lemma FirstIsOnly(ready: seq<Row>)
    requires Ascending(ready)
    ensures (ready == [] || forall q :: q in ready ==> Newer(ready[0], q)) <==> |ready| <= 1
  {
    if |ready| > 1 {
      assert ready[0] == Init(ready)[0] && ready[0] in Init(ready) && Last(ready) in ready;
      assert !Newer(ready[0], Last(ready));
    }
  }

  lemma {:induction false} TickingPrefix(run: seq<Command>, n: nat)
    requires Ticking(run) && n <= |run|
    ensures Ticking(run[..n])
  {
    if n < |run| {
      if |run| > 1 { TickingPrefix(Init(run), n); }
      assert Init(run)[..n] == run[..n];
    } else {
      assert run[..n] == run;
    }
  }

  /** So on a strictly increasing clock the stores answer a command alike if and only if it is
      not a current-version query with several ready versions in sight. */
  lemma TickingBisimulation(run: seq<SqlCommand>, ids: (Source, string) -> DocId, i: nat)
    requires Injective(ids) && LegalRun(run, ids) && SameAcls(run) && Ticking(Commands(run)) && i < |run|
    ensures OutcomeAgrees(Outcomes(Commands(run))[i], SqlOutcomes(run)[i])
       <==> OneAnswer(After(Commands(run[..i])), run[i].cmd)
  {
    TickingNewest(run, i);
    Bisimulation(run, ids, i);
  }

  lemma TickingNewest(run: seq<SqlCommand>, i: nat)
    requires Ticking(Commands(run)) && i < |run|
    ensures FirstIsNewest(After(Commands(run[..i])), run[i].cmd) <==> OneAnswer(After(Commands(run[..i])), run[i].cmd)
  {
    assert Commands(run[..i]) == Commands(run)[..i];
    TickingPrefix(Commands(run), i);
    RunAscends(Commands(run[..i]));
    NewestIsOnly(After(Commands(run[..i])), run[i].cmd);
  }

  /* ---- listings ---- */

  function CoreOf(): Row -> Row { (r: Row) => Core(r) }

  ghost predicate Descending(rows: seq<Row>) {
    forall i, j :: 0 <= i < j < |rows| ==> rows[i].createdAt > rows[j].createdAt
  }

  lemma Oldest(rows: seq<Row>, r: Row)
    requires Descending(rows) && r in rows
    ensures r.createdAt >= Last(rows).createdAt && (r.createdAt == Last(rows).createdAt <==> r == Last(rows))
  {
    var i :| 0 <= i < |rows| && rows[i] == r;
  }

  lemma InitMember(rows: seq<Row>, r: Row)
    requires Descending(rows) && rows != []
    ensures r in Init(rows) <==> r in rows && r != Last(rows)
  {
    assert rows == Init(rows) + [Last(rows)];
    if r in Init(rows) {
      var i :| 0 <= i < |rows| - 1 && rows[i] == r;
    }
  }

  lemma FirstIsMember(rows: seq<Row>)
    ensures rows != [] ==> exists r :: r in rows
  {
    if rows != [] {
      assert rows[0] in rows;
    }
  }

  /** Two lists of the same rows, newest first, are the same list. */
  lemma {:induction false} SameOrder(a: seq<Row>, b: seq<Row>)
    requires Descending(a) && Descending(b) && forall r :: r in a <==> r in b
    ensures a == b
  {
    FirstIsMember(b);
    if a != [] {
      assert Last(a) in a && Last(b) in b;
      Oldest(b, Last(a));
      Oldest(a, Last(b));
      forall r ensures r in Init(a) <==> r in Init(b) {
        InitMember(a, r);
        InitMember(b, r);
      }
      SameOrder(Init(a), Init(b));
      assert a == Init(a) + [Last(a)] && b == Init(b) + [Last(b)];
    }
  }

  lemma SameTime(q: Row, r: Row)
    requires Core(q) == Core(r)
    ensures q.createdAt == r.createdAt
  {
    assert Core(q).createdAt == Core(r).createdAt;
  }

  lemma CoreMember(rows: seq<Row>, x: Row)
    ensures x in Map(CoreOf(), rows) <==> exists r :: r in rows && Core(r) == x
  {
    if r :| r in rows && Core(r) == x {
      var i :| 0 <= i < |rows| && rows[i] == r;
      assert Map(CoreOf(), rows)[i] == x;
    }
    if x in Map(CoreOf(), rows) {
      var i :| 0 <= i < |rows| && Map(CoreOf(), rows)[i] == x;
      assert rows[i] in rows;
    }
  }

  lemma CoresDescend(rows: seq<Row>)
    requires Descending(rows)
    ensures Descending(Map(CoreOf(), rows))
  {
  }

  /** `listing` is what ORDER BY created_at DESC, document_id returns for the selected rows. */
  ghost predicate ListedInOrder(docs: set<Row>, listing: seq<Row>) {
    SortedBy(Newer, listing) && Distinct(listing) && forall r :: r in listing <==> r in docs
  }

  /** Both listings are the same list, in the same order, if and only if no two listed rows
      were created at the same instant: the stores break such ties in opposite ways. */
  lemma ListingsAgreeIff(s: Mem.Store, t: Table, tenant: string, groups: set<string>, all: bool, listing: seq<Row>)
    requires Agree(s, t) && ListedInOrder(Select(t.docs, Selected(tenant, groups, all)), listing)
    ensures var rows := Mem.ListDocuments(s, tenant, groups, all);
            Map(CoreOf(), rows) == Map(CoreOf(), listing) <==> Descending(rows)
  {
    var rows := Mem.ListDocuments(s, tenant, groups, all);
    var docs := Select(t.docs, Selected(tenant, groups, all));
    ListAgrees(s, t, tenant, groups, all);
    InMemoryStore.ListDocumentsCorrect(s, tenant, groups, all);
    if Descending(rows) {
      SqlDescends(t, rows, docs, listing);
      SameListing(rows, docs, listing);
    } else if Map(CoreOf(), rows) == Map(CoreOf(), listing) {
      TiesPart(t, rows, docs, listing);
    }
  }

  lemma SameListing(rows: seq<Row>, docs: set<Row>, listing: seq<Row>)
    requires Descending(rows) && Descending(listing) && SameRows(rows, docs) && forall r :: r in listing <==> r in docs
    ensures Map(CoreOf(), rows) == Map(CoreOf(), listing)
  {
    CoresDescend(rows);
    CoresDescend(listing);
    forall x ensures x in Map(CoreOf(), rows) <==> x in Map(CoreOf(), listing) {
      SameCores(rows, docs, listing, x);
    }
    SameOrder(Map(CoreOf(), rows), Map(CoreOf(), listing));
  }

  /** Every key holds its own row. */
  ghost predicate Keyed(t: Table, docs: set<Row>) {
    (forall k :: k in t.docs ==> t.docs[k].Key() == k) && forall r :: r in docs ==> r in t.docs.Values
  }

  lemma SameKey(t: Table, docs: set<Row>, q: Row, r: Row)
    requires Keyed(t, docs) && q in docs && r in docs && q.Key() == r.Key()
    ensures q == r
  {
  }

  /** In a run of one tenant's rows, ids fall in memory and rise in SQL within a tie. */
  lemma TiesPart(t: Table, rows: seq<Row>, docs: set<Row>, listing: seq<Row>)
    requires Keyed(t, docs) && ListedInOrder(docs, listing) && SortedBy(Mem.Before, rows)
    requires forall q, r :: q in docs && r in docs ==> q.tenant == r.tenant
    requires Map(CoreOf(), rows) == Map(CoreOf(), listing)
    ensures Descending(rows)
  {
    forall i, j | 0 <= i < j < |rows| ensures rows[i].createdAt > rows[j].createdAt {
      var q, r := listing[i], listing[j];
      assert Map(CoreOf(), rows)[i] == Core(rows[i]) == Core(q) && Map(CoreOf(), rows)[j] == Core(rows[j]) == Core(r);
      SameTime(rows[i], q);
      SameTime(rows[j], r);
      assert Mem.Before(rows[i], rows[j]) && Newer(q, r) && q in listing && r in listing;
      if rows[i].createdAt == rows[j].createdAt {
        SameKey(t, docs, q, r);
      }
    }
  }

  lemma SameCores(rows: seq<Row>, docs: set<Row>, listing: seq<Row>, x: Row)
    requires SameRows(rows, docs) && forall r :: r in listing <==> r in docs
    ensures x in Map(CoreOf(), rows) <==> x in Map(CoreOf(), listing)
  {
    CoreMember(rows, x);
    CoreMember(listing, x);
    if r :| r in rows && Core(r) == x {
      assert InDocs(docs, r);
    }
    if q :| q in listing && Core(q) == x {
      assert InRows(rows, q);
    }
  }

  lemma {:induction false} DistinctTimes(rows: seq<Row>, q: Row, r: Row)
    requires Ascending(rows) && q in rows && r in rows && q.createdAt == r.createdAt
    ensures q == r
  {
    assert rows == Init(rows) + [Last(rows)];
    if q in Init(rows) && r in Init(rows) {
      DistinctTimes(Init(rows), q, r);
    }
  }

  lemma {:induction false} AscendingDistinct(rows: seq<Row>)
    requires Ascending(rows)
    ensures forall r :: r in rows ==> multiset(rows)[r] == 1
  {
    if rows != [] {
      assert rows == Init(rows) + [Last(rows)];
      AscendingDistinct(Init(rows));
      assert Last(rows) !in Init(rows);
    }
  }

  lemma MemoryDescends(s: Mem.Store, tenant: string, groups: set<string>, all: bool)
    requires Ascending(s.rows)
    ensures Descending(Mem.ListDocuments(s, tenant, groups, all))
  {
    var hits := Filter(Mem.Listed(tenant, groups, all), s.rows);
    var listing := Mem.ListDocuments(s, tenant, groups, all);
    InMemoryStore.ListDocumentsCorrect(s, tenant, groups, all);
    FilterAscends(Mem.Listed(tenant, groups, all), s.rows);
    AscendingDistinct(hits);
    forall i, j | 0 <= i < j < |listing| ensures listing[i].createdAt > listing[j].createdAt {
      assert Mem.Before(listing[i], listing[j]);
      if listing[i].createdAt == listing[j].createdAt {
        assert listing[i] in multiset(listing) && listing[j] in multiset(listing);
        DistinctTimes(hits, listing[i], listing[j]);
        TwiceInside(listing, i, j);
      }
    }
  }

  lemma TwiceInside<T>(s: seq<T>, i: nat, j: nat)
    requires i < j < |s| && s[i] == s[j]
    ensures multiset(s)[s[i]] >= 2
  {
    assert s == s[..j] + [s[j]] + s[j + 1..];
    assert s[..j][i] == s[i] && s[i] in s[..j];
  }

  lemma RowFor(rows: seq<Row>, docs: set<Row>, q: Row) returns (r: Row)
    requires SameRows(rows, docs) && q in docs
    ensures r in rows && Core(q) == Core(r)
  {
    assert InRows(rows, q);
    r :| r in rows && Core(q) == Core(r);
  }

  lemma SqlDescends(t: Table, rows: seq<Row>, docs: set<Row>, listing: seq<Row>)
    requires Keyed(t, docs) && Descending(rows) && SameRows(rows, docs) && ListedInOrder(docs, listing)
    ensures Descending(listing)
  {
    forall i, j | 0 <= i < j < |listing| ensures listing[i].createdAt > listing[j].createdAt {
      var q, r := listing[i], listing[j];
      assert Newer(q, r) && q in listing && r in listing;
      if q.createdAt == r.createdAt {
        TieIsOneRow(t, rows, docs, q, r);
      }
    }
  }

  lemma TieIsOneRow(t: Table, rows: seq<Row>, docs: set<Row>, q: Row, r: Row)
    requires Keyed(t, docs) && Descending(rows) && SameRows(rows, docs) && q in docs && r in docs && q.createdAt == r.createdAt
    ensures q == r
  {
    var a := RowFor(rows, docs, q);
    var b := RowFor(rows, docs, r);
    SameTime(q, a);
    SameTime(r, b);
    var k :| 0 <= k < |rows| && rows[k] == a;
    var l :| 0 <= l < |rows| && rows[l] == b;
    assert Core(q).docId == Core(r).docId && Core(q).tenant == Core(r).tenant;
    SameKey(t, docs, q, r);
  }
}
