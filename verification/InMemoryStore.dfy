/** The mutable store of memory_store.py, proved against the functions of `MemoryStore`. */
module InMemoryStore {
  import opened Sequences
  import opened Documents
  import opened Sorting
  import Spec = MemoryStore
  import opened StoreRuns

  class InMemoryStore {
    var documents: seq<Row>
    var chunks: map<Key, seq<Chunk>>

    ghost function Contents(): Spec.Store
      reads this
    {
      Spec.Store(documents, chunks)
    }

    ghost predicate Valid()
      reads this
    {
      Spec.Valid(Contents())
    }

    constructor ()
      ensures Valid() && Contents() == Spec.EMPTY
    {
      documents, chunks := [], map[];
    }

    /** The position of a key in the table. */
    method Find(key: Key) returns (at: Option<nat>)
      requires Valid()
      ensures at.None? ==> Spec.Lookup(documents, key) == None && forall r :: r in documents ==> r.Key() != key
      ensures at.Some? ==> at.value < |documents| && documents[at.value].Key() == key
      ensures at.Some? ==> Spec.Lookup(documents, key) == Some(documents[at.value])
      ensures at.Some? ==> forall i :: 0 <= i < |documents| && i != at.value ==> documents[i].Key() != key
    {
      var i := 0;
      while i < |documents| && documents[i].Key() != key
        invariant 0 <= i <= |documents|
        invariant forall j :: 0 <= j < i ==> documents[j].Key() != key
      {
        i := i + 1;
      }
      if i < |documents| {
        Spec.LookupUnique(documents, documents[i]);
        OnlyIndex(documents, i);
        return Some(i);
      }
      Spec.LookupMember(documents, key);
      return None;
    }

    method Persist(u: Upload, now: Time) returns (result: Option<PersistResult>)
      requires Valid()
      modifies this
      ensures (Contents(), result) == Spec.Persist(old(Contents()), u, now)
      ensures Valid()
    {
      PersistValid(Contents(), u, now);
      if u.chunks == [] {
        return None;
      }
      var existing := Find(u.Key());
      if existing.Some? && documents[existing.value].status == Ready {
        var row := documents[existing.value];
        EditAt(documents, existing.value, Spec.Touch(u.Key(), now));
        documents := documents[existing.value := row.(lastCheckedAt := now)];
        return Some(PersistResult(u.docId, 0, true, row.version, []));
      }
      result := StoreVersion(u, existing, now);
    }

    /** Supersede the siblings, then add the document or reinstate it. */
    method StoreVersion(u: Upload, existing: Option<nat>, now: Time) returns (result: Option<PersistResult>)
      requires existing.Some? ==> existing.value < |documents|
      requires existing.Some? ==> forall i :: 0 <= i < |documents| && i != existing.value ==> documents[i].Key() != u.Key()
      modifies this
      ensures existing.None? ==>
                && Contents() == Spec.PersistNew(old(Contents()), u, now)
                && result == Some(PersistResult(u.docId, |u.chunks|, false, Spec.NextVersion(old(documents), u),
                                                Spec.SupersededIds(old(documents), u)))
      ensures existing.Some? ==>
                && Contents() == Spec.PersistAgain(old(Contents()), u, now)
                && result == Some(PersistResult(u.docId, 0, true, Spec.NextVersion(old(documents), u),
                                                Spec.SupersededIds(old(documents), u)))
    {
      var acl := Spec.InheritedAcl(documents, u);
      var version := Spec.NextVersion(documents, u);
      var superseded := SupersedeSiblings(u, now);
      if existing.None? {
        documents := documents + [Spec.NewRow(u, version, acl, now)];
        chunks := chunks[u.Key() := u.chunks];
        result := Some(PersistResult(u.docId, |u.chunks|, false, version, superseded));
      } else {
        EditAt(documents, existing.value, Spec.Reinstate(u, version, now));
        documents := documents[existing.value := Spec.Reinstate(u, version, now)(documents[existing.value])];
        result := Some(PersistResult(u.docId, 0, true, version, superseded));
      }
    }

    method SupersedeSiblings(u: Upload, now: Time) returns (superseded: seq<DocId>)
      modifies this`documents
      ensures documents == Map(Spec.Supersede(u, now), old(documents))
      ensures superseded == Spec.SupersededIds(old(documents), u)
    {
      ghost var rows := documents;
      superseded := [];
      var i := 0;
      while i < |documents|
        invariant 0 <= i <= |rows| == |documents|
        invariant forall j :: 0 <= j < i ==> documents[j] == Spec.Supersede(u, now)(rows[j])
        invariant documents[i..] == rows[i..]
        invariant superseded == Spec.SupersededIds(rows[..i], u)
      {
        var r := documents[i];
        assert documents[i..][0] == r && rows[i..][0] == r;
        assert Spec.SupersededIds(rows[..i + 1], u)
            == Spec.SupersededIds(rows[..i], u) + if IsSibling(r, u) && IsReady(r) then [r.docId] else [] by {
          assert rows[..i + 1] == rows[..i] + [r];
          SupersededNext(rows[..i], r, u);
        }
        if IsSibling(r, u) && r.status == Ready {
          documents := documents[i := r.(status := Superseded, updatedAt := now)];
          superseded := superseded + [r.docId];
        }
        i := i + 1;
      }
      assert rows[..i] == rows;
    }

    method CurrentVersion(tenant: string, source: Source, groups: set<string>) returns (row: Option<Row>)
      ensures row == Spec.CurrentVersion(Contents(), tenant, source, groups)
    {
      var i := 0;
      while i < |documents|
        invariant 0 <= i <= |documents|
        invariant ReadyIn(documents[..i], tenant, source, groups) == []
      {
        var r := documents[i];
        FirstReady(documents, i, tenant, source, groups);
        if IsVersion(r, tenant, source, groups) && r.status == Ready {
          return Some(r);
        }
        i := i + 1;
      }
      assert documents[..i] == documents;
      return None;
    }

    method GetDocument(key: Key, groups: set<string>) returns (row: Option<Row>)
      requires Valid()
      ensures row == Spec.GetDocument(Contents(), key, groups)
    {
      var at := Find(key);
      row := if at.Some? && Visible(documents[at.value], groups) then Some(documents[at.value]) else None;
    }

    method MarkChecked(key: Key, now: Time)
      requires Valid()
      modifies this`documents
      ensures Valid() && Contents() == Spec.MarkChecked(old(Contents()), key, now)
    {
      ValidEdit(Contents(), Spec.Touch(key, now));
      var at := Find(key);
      if at.Some? {
        documents := documents[at.value := documents[at.value].(lastCheckedAt := now)];
      }
      assert documents == Map(Spec.Touch(key, now), old(documents));
    }

    method UpdateDocument(key: Key, groups: set<string>, acl: Option<seq<string>>, name: Option<string>, now: Time)
      returns (found: bool, row: Option<Row>)
      requires Valid()
      modifies this`documents
      ensures Valid()
      ensures (Contents(), (found, row)) == Spec.UpdateDocument(old(Contents()), key, groups, acl, name, now)
    {
      var at := Find(key);
      if at.None? || !Visible(documents[at.value], groups) {
        return false, None;
      }
      ghost var before := Contents();
      var source := documents[at.value].source;
      RewriteVersions(key.tenant, source, groups, acl, name, now);
      Rewritten(before, at.value, key, groups, acl, name, now);
      found, row := true, if Visible(documents[at.value], groups) then Some(documents[at.value]) else None;
    }

    /** Change every visible version of a source. */
    method RewriteVersions(tenant: string, source: Source, groups: set<string>,
                           acl: Option<seq<string>>, name: Option<string>, now: Time)
      modifies this`documents
      ensures documents == Map(Spec.Rewrite(tenant, source, groups, acl, name, now), old(documents))
    {
      ghost var rows := documents;
      var i := 0;
      while i < |documents|
        invariant 0 <= i <= |rows| == |documents|
        invariant forall j :: 0 <= j < i ==> documents[j] == Spec.Rewrite(tenant, source, groups, acl, name, now)(rows[j])
        invariant documents[i..] == rows[i..]
      {
        var r := documents[i];
        assert documents[i..][0] == r && rows[i..][0] == r;
        if IsVersion(r, tenant, source, groups) {
          if acl.Some? { r := r.(allowedGroups := acl.value); }
          if name.Some? { r := r.(displayName := name.value); }
          documents := documents[i := r.(updatedAt := now)];
        }
        i := i + 1;
      }
    }

    method DeleteDocument(key: Key, groups: set<string>) returns (deleted: bool)
      requires Valid()
      modifies this
      ensures Valid() && (Contents(), deleted) == Spec.DeleteDocument(old(Contents()), key, groups)
    {
      KeysOfRemove(documents, key);
      var at := Find(key);
      if at.None? || !Visible(documents[at.value], groups) {
        return false;
      }
      WithoutIndex(documents, at.value);
      documents := documents[..at.value] + documents[at.value + 1..];
      chunks := chunks - {key};
      deleted := true;
    }

    method ReadableChunks(tenant: string, groups: set<string>) returns (readable: seq<Chunk>)
      requires Valid()
      ensures readable == Spec.ReadableChunks(Contents(), tenant, groups)
    {
      readable := [];
      var i := 0;
      while i < |documents|
        invariant 0 <= i <= |documents|
        invariant readable == Spec.ReadableChunks(Spec.Store(documents[..i], chunks), tenant, groups)
      {
        var r := documents[i];
        ReadableNext(documents[..i], r, chunks, tenant, groups);
        assert r.Key() in chunks by { Spec.KeysOfMember(documents, r.Key()); }
        assert documents[..i + 1] == documents[..i] + [r];
        if Spec.Listed(tenant, groups, false)(r) {
          readable := readable + Spec.RowChunks(chunks, r);
        }
        i := i + 1;
      }
      assert documents[..i] == documents;
    }
  }

  /** With no ready version before a row, the row is the first if it is one. */
  lemma FirstReady(rows: seq<Row>, i: nat, tenant: string, source: Source, groups: set<string>)
    requires i < |rows| && ReadyIn(rows[..i], tenant, source, groups) == []
    ensures if IsVersion(rows[i], tenant, source, groups) && IsReady(rows[i])
            then Spec.CurrentVersion(Spec.Store(rows, map[]), tenant, source, groups) == Some(rows[i])
            else ReadyIn(rows[..i + 1], tenant, source, groups) == []
  {
    var before, r, after := rows[..i], rows[i], rows[i + 1..];
    assert rows[..i + 1] == before + [r] && rows == before + [r] + after;
    ReadyStep(before, r, after, tenant, source, groups);
  }

  lemma ReadyStep(before: seq<Row>, r: Row, after: seq<Row>, tenant: string, source: Source, groups: set<string>)
    requires ReadyIn(before, tenant, source, groups) == []
    ensures if IsVersion(r, tenant, source, groups) && IsReady(r)
            then ReadyIn(before + [r] + after, tenant, source, groups) == [r] + ReadyIn(after, tenant, source, groups)
            else ReadyIn(before + [r], tenant, source, groups) == []
  {
    ReadyNext(before, r, after, tenant, source, groups);
    ReadyOne(r, tenant, source, groups);
  }

  lemma ReadyNext(before: seq<Row>, r: Row, after: seq<Row>, tenant: string, source: Source, groups: set<string>)
    requires ReadyIn(before, tenant, source, groups) == []
    ensures ReadyIn(before + [r], tenant, source, groups) == ReadyIn([r], tenant, source, groups)
    ensures ReadyIn(before + [r] + after, tenant, source, groups)
         == ReadyIn([r], tenant, source, groups) + ReadyIn(after, tenant, source, groups)
  {
    ReadyConcat(before, [r], tenant, source, groups);
    ReadyConcat(before + [r], after, tenant, source, groups);
  }

  function ReadyIn(rows: seq<Row>, tenant: string, source: Source, groups: set<string>): seq<Row> {
    Filter(IsReady, Spec.Versions(rows, tenant, source, groups))
  }

  lemma ReadyOne(r: Row, tenant: string, source: Source, groups: set<string>)
    ensures ReadyIn([r], tenant, source, groups) == if IsVersion(r, tenant, source, groups) && IsReady(r) then [r] else []
  {
    assert Init([r]) == [];
  }

  lemma ReadyConcat(a: seq<Row>, b: seq<Row>, tenant: string, source: Source, groups: set<string>)
    ensures ReadyIn(a + b, tenant, source, groups) == ReadyIn(a, tenant, source, groups) + ReadyIn(b, tenant, source, groups)
  {
    var p := Spec.VersionOf(tenant, source, groups);
    FilterConcat(p, a, b);
    FilterConcat(IsReady, Filter(p, a), Filter(p, b));
  }

  lemma SupersededNext(rows: seq<Row>, r: Row, u: Upload)
    ensures Spec.SupersededIds(rows + [r], u)
         == Spec.SupersededIds(rows, u) + if IsSibling(r, u) && IsReady(r) then [r.docId] else []
  {
    assert Init(rows + [r]) == rows;
  }

  lemma OnlyIndex(rows: seq<Row>, at: nat)
    requires Spec.DistinctKeys(rows) && at < |rows|
    ensures forall i :: 0 <= i < |rows| && i != at ==> rows[i].Key() != rows[at].Key()
  {
    forall i, j | 0 <= i < j < |rows|
      ensures rows[i].Key() != rows[j].Key()
    {
      PairDistinct(rows, i, j);
    }
  }

  lemma {:induction false} PairDistinct(rows: seq<Row>, i: nat, j: nat)
    requires Spec.DistinctKeys(rows) && i < j < |rows|
    ensures rows[i].Key() != rows[j].Key()
  {
    if j == |rows| - 1 {
      assert Init(rows)[i] in Init(rows);
      Spec.KeysOfMember(Init(rows), rows[i].Key());
    } else {
      PairDistinct(Init(rows), i, j);
    }
  }

  /** Deleting one position of a table with distinct keys is filtering its key out. */
  lemma {:induction false} WithoutIndex(rows: seq<Row>, at: nat)
    requires Spec.DistinctKeys(rows) && at < |rows|
    ensures rows[..at] + rows[at + 1..] == Filter(Spec.OtherThan(rows[at].Key()), rows)
  {
    var p := Spec.OtherThan(rows[at].Key());
    if at == |rows| - 1 {
      forall x | x in Init(rows) ensures p(x) {
        Spec.KeysOfMember(Init(rows), x.Key());
      }
      FilterAll(p, Init(rows));
      assert rows[..at] + rows[at + 1..] == Init(rows);
    } else {
      WithoutIndex(Init(rows), at);
      PairDistinct(rows, at, |rows| - 1);
      assert rows[..at] + rows[at + 1..] == Init(rows)[..at] + Init(rows)[at + 1..] + [Last(rows)];
    }
  }

  /** What an update does when position `at` holds the caller's document. */
  lemma Rewritten(s: Spec.Store, at: nat, key: Key, groups: set<string>, acl: Option<seq<string>>, name: Option<string>, now: Time)
    requires Spec.Valid(s) && at < |s.rows| && Spec.Lookup(s.rows, key) == Some(s.rows[at]) && Visible(s.rows[at], groups)
    requires s.rows[at].Key() == key
    ensures var s' := Spec.Edit(s, Spec.Rewrite(key.tenant, s.rows[at].source, groups, acl, name, now));
            && Spec.Valid(s') && |s'.rows| == |s.rows|
            && Spec.UpdateDocument(s, key, groups, acl, name, now)
               == (s', (true, if Visible(s'.rows[at], groups) then Some(s'.rows[at]) else None))
  {
    var f := Spec.Rewrite(key.tenant, s.rows[at].source, groups, acl, name, now);
    ValidEdit(s, f);
    Spec.LookupUnique(Spec.Edit(s, f).rows, Spec.Edit(s, f).rows[at]);
  }

  /** Updating the one record of a key in place is rewriting the table. */
  lemma EditAt(rows: seq<Row>, at: nat, f: Row -> Row)
    requires at < |rows|
    requires forall i :: 0 <= i < |rows| && i != at ==> f(rows[i]) == rows[i]
    ensures rows[at := f(rows[at])] == Map(f, rows)
  {
  }

  lemma ReadableNext(rows: seq<Row>, r: Row, chunks: map<Key, seq<Chunk>>, tenant: string, groups: set<string>)
    ensures Spec.ReadableChunks(Spec.Store(rows + [r], chunks), tenant, groups)
         == Spec.ReadableChunks(Spec.Store(rows, chunks), tenant, groups)
            + if Spec.Listed(tenant, groups, false)(r) then Spec.RowChunks(chunks, r) else []
  {
    var listed, f := Spec.Listed(tenant, groups, false), Spec.ChunksOf(chunks);
    var hits := Filter(listed, rows);
    assert Init(rows + [r]) == rows && Last(rows + [r]) == r;
    if listed(r) {
      assert Filter(listed, rows + [r]) == hits + [r];
      assert Init(Map(f, hits + [r])) == Map(f, hits) && Last(Map(f, hits + [r])) == f(r);
    } else {
      assert Filter(listed, rows + [r]) == hits;
    }
  }

  /** A listing holds exactly the caller-visible documents, newest first. */
  lemma ListDocumentsCorrect(s: Spec.Store, tenant: string, groups: set<string>, all: bool)
    ensures var listing := Spec.ListDocuments(s, tenant, groups, all);
            && SortedBy(Spec.Before, listing)
            && (forall i, j :: 0 <= i < j < |listing| ==>
                  || listing[i].createdAt > listing[j].createdAt
                  || (listing[i].createdAt == listing[j].createdAt && listing[i].docId >= listing[j].docId))
            && multiset(listing) == multiset(Filter(Spec.Listed(tenant, groups, all), s.rows))
            && forall r :: r in listing <==> r in s.rows && r.tenant == tenant && Visible(r, groups) && (all || IsReady(r))
  {
    var hits := Filter(Spec.Listed(tenant, groups, all), s.rows);
    SortCorrect(Spec.Before, hits);
    SortMembers(Spec.Before, hits);
    FilterMember(Spec.Listed(tenant, groups, all), s.rows);
  }
}
