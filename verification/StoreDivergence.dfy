/** A run after which the two stores part: two teams keep versions of one document that the
    other cannot see, and a member of both uploads it again without naming an ACL, or asks
    for the current version. */
module StoreDivergence {
  import opened Sequences
  import opened Documents
  import opened StoreRuns
  import Mem = MemoryStore
  import opened SqlStore
  import opened StoreBisimulation
  import opened StoreBisimulationRuns

  function Sent(u: Upload, now: Time): SqlCommand { SqlCommand(Command(DoPersist(u), now), None) }

  /** Three uploads, one after the other. */
  function Three(a: Upload, b: Upload, c: Upload): seq<SqlCommand> { [Sent(a, 1)] + [Sent(b, 2)] + [Sent(c, 3)] }

  lemma RunNext(run: seq<SqlCommand>, u: Upload, now: Time)
    ensures After(Commands(run + [Sent(u, now)])) == Mem.Persist(After(Commands(run)), u, now).0
  {
    assert Init(Commands(run + [Sent(u, now)])) == Commands(run);
  }

  lemma LegalNext(run: seq<SqlCommand>, u: Upload, now: Time, ids: (Source, string) -> DocId)
    requires LegalRun(run, ids) && SameAcls(run) && u.acl.Some? && u.docId == ids(u.Origin(), u.sha)
    ensures LegalRun(run + [Sent(u, now)], ids) && SameAcls(run + [Sent(u, now)])
  {
    assert Init(run + [Sent(u, now)]) == run;
  }

  /** An upload whose uploader sees no other version is appended as version 1. */
  lemma FirstSeen(s: Mem.Store, u: Upload, acl: seq<string>, now: Time)
    requires u.chunks != [] && u.acl == Some(acl)
    requires forall r :: r in s.rows ==> r.Key() != u.Key() && !IsSibling(r, u)
    ensures Mem.Persist(s, u, now).0.rows == s.rows + [Mem.NewRow(u, 1, acl, now)]
  {
    FilterNone(Mem.HasKey(u.Key()), s.rows);
    FilterNone(Mem.SiblingOf(u), s.rows);
    MapIdentity(Mem.Supersede(u, now), s.rows);
  }

  lemma FilterOne<T>(p: T -> bool, x: T)
    ensures Filter(p, [x]) == if p(x) then [x] else []
  {
    assert Init([x]) == [];
  }

  lemma FilterLast<T>(p: T -> bool, s: seq<T>, x: T)
    requires forall y :: y in s ==> !p(y)
    ensures Filter(p, s + [x]) == if p(x) then [x] else []
  {
    FilterConcat(p, s, [x]);
    FilterNone(p, s);
    FilterOne(p, x);
  }

  /** An upload that replaces one ready version, the last row. */
  lemma Replaces(s: Mem.Store, u: Upload, acl: seq<string>, now: Time, others: seq<Row>, r: Row)
    requires u.chunks != [] && u.acl == Some(acl) && s.rows == others + [r]
    requires r.Key() != u.Key() && IsSibling(r, u) && IsReady(r)
    requires forall q :: q in others ==> q.Key() != u.Key() && !IsSibling(q, u)
    ensures Mem.Persist(s, u, now).0.rows
         == others + [r.(status := Superseded, updatedAt := now)] + [Mem.NewRow(u, r.version + 1, acl, now)]
  {
    FilterLast(Mem.HasKey(u.Key()), others, r);
    NumberedNext(others, r, u);
    SupersedesLast(others, r, u, now);
  }

  lemma NumberedNext(others: seq<Row>, r: Row, u: Upload)
    requires IsSibling(r, u) && forall q :: q in others ==> !IsSibling(q, u)
    ensures Mem.NextVersion(others + [r], u) == r.version + 1
  {
    FilterLast(Mem.SiblingOf(u), others, r);
    assert Init([r]) == [] && Mem.MaxVersion([r]) == r.version;
  }

  lemma SupersedesLast(others: seq<Row>, r: Row, u: Upload, now: Time)
    requires IsSibling(r, u) && IsReady(r) && forall q :: q in others ==> !IsSibling(q, u)
    ensures Map(Mem.Supersede(u, now), others + [r]) == others + [r.(status := Superseded, updatedAt := now)]
  {
    MapIdentity(Mem.Supersede(u, now), others);
  }

  lemma SecondTeam(s: Mem.Store, x: Row, u: Upload, acl: seq<string>)
    requires s.rows == [x] && u.chunks != [] && u.acl == Some(acl)
    requires x.docId != u.docId && !Visible(x, u.groups)
    ensures Mem.Persist(s, u, 2).0.rows == [x] + [Mem.NewRow(u, 1, acl, 2)]
  {
    FirstSeen(s, u, acl, 2);
  }

  /** The hidden version stays ready; the visible one is superseded. */
  lemma SecondVersion(s: Mem.Store, x: Row, y: Row, u: Upload, acl: seq<string>)
    requires s.rows == [x] + [y] && u.chunks != [] && u.acl == Some(acl)
    requires x.docId != u.docId && !Visible(x, u.groups) && IsSibling(y, u) && IsReady(y)
    ensures Mem.Persist(s, u, 3).0.rows
         == [x] + [y.(status := Superseded, updatedAt := 3)] + [Mem.NewRow(u, y.version + 1, acl, 3)]
  {
    Replaces(s, u, acl, 3, [x], y);
  }

  lemma AfterThree(a: Upload, b: Upload, c: Upload)
    ensures After(Commands(Three(a, b, c))) == Mem.Persist(Mem.Persist(Mem.Persist(Mem.EMPTY, a, 1).0, b, 2).0, c, 3).0
  {
    RunNext([], a, 1);
    assert [] + [Sent(a, 1)] == [Sent(a, 1)];
    RunNext([Sent(a, 1)], b, 2);
    RunNext([Sent(a, 1)] + [Sent(b, 2)], c, 3);
  }

  lemma ThreeReady(s: Mem.Store, x: Row, y: Row, z: Row, tenant: string, source: Source, groups: set<string>)
    requires s.rows == [x] + [y] + [z] && IsVersion(x, tenant, source, groups) && IsVersion(z, tenant, source, groups)
    requires IsReady(x) && !IsReady(y) && IsReady(z)
    ensures ReadyRows(s, tenant, source, groups) == [x, z]
  {
    var p := Mem.VersionOf(tenant, source, groups);
    FilterSwap(p, IsReady, s.rows);
    FilterThree(IsReady, x, y, z);
    FilterAll(p, [x, z]);
  }

  lemma FilterThree<T>(p: T -> bool, x: T, y: T, z: T)
    requires p(x) && !p(y) && p(z)
    ensures Filter(p, [x] + [y] + [z]) == [x, z]
  {
    FilterConcat(p, [x] + [y], [z]);
    FilterConcat(p, [x], [y]);
    FilterOne(p, x);
    FilterOne(p, y);
    FilterOne(p, z);
  }

  /** The query for the ACL of the highest ready version can fetch the newer of two rows. */
  lemma NewerIsFetched(s: Mem.Store, t: Table, u: Upload, older: Row, newer: Row)
    requires Agree(s, t) && ReadyRows(s, u.tenant, u.Origin(), u.groups) == [older, newer] && older.version < newer.version
    ensures newer.Key() in t.docs && Legal(t, SqlCommand(Command(DoPersist(u), 4), Some(t.docs[newer.Key()])))
  {
    var ready := ReadyRows(s, u.tenant, u.Origin(), u.groups);
    assert newer in ready;
    ReadyToSql(s, t, u.tenant, u.Origin(), u.groups, newer);
    ReadyMember(s, u.tenant, u.Origin(), u.groups);
    var row := t.docs[newer.Key()];
    assert Core(row).version == Core(newer).version;
    forall q | q in ReadyVersions(t.docs, u.tenant, u.Origin(), u.groups) ensures HigherVersion(row, q) {
      var r := ReadyFromSql(s, t, u.tenant, u.Origin(), u.groups, q);
      assert Core(q).version == Core(r).version;
    }
  }

  function UploadOf(ids: (Source, string) -> DocId, sha: string, acl: Option<seq<string>>, groups: set<string>): Upload {
    Upload("t", "f", ids(Source("upload", "f"), sha), sha, [Chunk("text", 0, "f", None)], acl, groups, "text/plain", None, None, None)
  }

  lemma OtherId(ids: (Source, string) -> DocId, x: char, y: char)
    requires Injective(ids) && x != y
    ensures ids(Source("upload", "f"), [x]) != ids(Source("upload", "f"), [y])
  {
    assert [x][0] != [y][0];
  }

  /** The three versions that the run leaves. */
  lemma ThreeVersions(a: Upload, b: Upload, c: Upload, tenant: string, source: Source, red: string, blue: string)
    requires Team(a, tenant, source, red) && Team(b, tenant, source, blue) && Team(c, tenant, source, blue) && red != blue
    requires a.docId != b.docId && a.docId != c.docId && b.docId != c.docId
    ensures Mem.Persist(Mem.Persist(Mem.Persist(Mem.EMPTY, a, 1).0, b, 2).0, c, 3).0.rows
         == [Mem.NewRow(a, 1, [red], 1)] + [Mem.NewRow(b, 1, [blue], 2).(status := Superseded, updatedAt := 3)]
            + [Mem.NewRow(c, 2, [blue], 3)]
  {
    FirstSeen(Mem.EMPTY, a, [red], 1);
    TeamsApart(a, b, tenant, source, red, blue);
    TeamsApart(a, c, tenant, source, red, blue);
    TeamSibling(b, c, tenant, source, blue);
    NextTwo(Mem.Persist(Mem.EMPTY, a, 1).0, Mem.NewRow(a, 1, [red], 1), b, c, [blue]);
  }

  lemma TeamsApart(a: Upload, b: Upload, tenant: string, source: Source, red: string, blue: string)
    requires Team(a, tenant, source, red) && Team(b, tenant, source, blue) && red != blue
    ensures !Visible(Mem.NewRow(a, 1, [red], 1), b.groups)
  {
  }

  lemma TeamSibling(b: Upload, c: Upload, tenant: string, source: Source, blue: string)
    requires Team(b, tenant, source, blue) && Team(c, tenant, source, blue) && b.docId != c.docId
    ensures IsSibling(Mem.NewRow(b, 1, [blue], 2), c)
  {
    assert blue in [blue];
  }

  lemma NextTwo(s: Mem.Store, x: Row, b: Upload, c: Upload, acl: seq<string>)
    requires s.rows == [x] && b.chunks != [] && c.chunks != [] && b.acl == Some(acl) && c.acl == Some(acl)
    requires x.docId != b.docId && x.docId != c.docId && !Visible(x, b.groups) && !Visible(x, c.groups)
    requires IsSibling(Mem.NewRow(b, 1, acl, 2), c)
    ensures Mem.Persist(Mem.Persist(s, b, 2).0, c, 3).0.rows
         == [x] + [Mem.NewRow(b, 1, acl, 2).(status := Superseded, updatedAt := 3)] + [Mem.NewRow(c, 2, acl, 3)]
  {
    SecondTeam(s, x, b, acl);
    SecondVersion(Mem.Persist(s, b, 2).0, x, Mem.NewRow(b, 1, acl, 2), c, acl);
  }

  /** An upload of one document for the uploader's own group. */
  predicate Team(u: Upload, tenant: string, source: Source, group: string) {
    u.tenant == tenant && u.Origin() == source && u.chunks != [] && u.acl == Some([group]) && u.groups == {group}
  }

  lemma MemberSees(a: Upload, version: nat, now: Time, tenant: string, source: Source, group: string, groups: set<string>)
    requires Team(a, tenant, source, group) && group in groups
    ensures IsVersion(Mem.NewRow(a, version, [group], now), tenant, source, groups)
  {
    assert group in [group];
  }

  /** Two teams with a version each that the other cannot see, the blue one newer. */
  ghost predicate Rivals(a: Upload, b: Upload, c: Upload, ids: (Source, string) -> DocId,
                         tenant: string, source: Source, red: string, blue: string) {
    && Team(a, tenant, source, red) && Team(b, tenant, source, blue) && Team(c, tenant, source, blue) && red != blue
    && a.docId != b.docId && a.docId != c.docId && b.docId != c.docId
    && (forall x :: x in {a, b, c} ==> x.docId == ids(x.Origin(), x.sha))
  }

  /** What their uploads leave: agreeing stores in which a member of both sees two ready versions. */
  lemma RivalRun(a: Upload, b: Upload, c: Upload, ids: (Source, string) -> DocId,
                 tenant: string, source: Source, red: string, blue: string) returns (x: Row, y: Row, z: Row)
    requires Rivals(a, b, c, ids, tenant, source, red, blue) && Injective(ids)
    ensures LegalRun(Three(a, b, c), ids) && SameAcls(Three(a, b, c)) && AgreeThroughout(Three(a, b, c))
    ensures Identified(After(Commands(Three(a, b, c))), ids)
    ensures After(Commands(Three(a, b, c))).rows == [x] + [y] + [z]
    ensures x.docId == a.docId && y.docId == b.docId && z.docId == c.docId
    ensures IsReady(x) && !IsReady(y) && IsReady(z) && x.version < z.version && x.createdAt < z.createdAt
    ensures x.allowedGroups != z.allowedGroups
    ensures IsVersion(x, tenant, source, {red, blue}) && IsVersion(z, tenant, source, {red, blue})
  {
    x, y := Mem.NewRow(a, 1, [red], 1), Mem.NewRow(b, 1, [blue], 2).(status := Superseded, updatedAt := 3);
    z := Mem.NewRow(c, 2, [blue], 3);
    AfterThree(a, b, c);
    ThreeVersions(a, b, c, tenant, source, red, blue);
    LegalThree(a, b, c, ids);
    RunsAgreeIff(Three(a, b, c), ids);
    RunIdentified(Three(a, b, c), ids);
    MemberSees(a, 1, 1, tenant, source, red, {red, blue});
    MemberSees(c, 2, 3, tenant, source, blue, {red, blue});
    assert x.allowedGroups != z.allowedGroups by { assert [red][0] != [blue][0]; }
  }

  lemma ExampleRivals(ids: (Source, string) -> DocId) returns (a: Upload, b: Upload, c: Upload)
    requires Injective(ids)
    ensures Rivals(a, b, c, ids, "t", Source("upload", "f"), "r", "b")
    ensures UploadOf(ids, ['4'], None, {"r", "b"}).docId !in {a.docId, b.docId, c.docId}
  {
    a := UploadOf(ids, ['1'], Some(["r"]), {"r"});
    b := UploadOf(ids, ['2'], Some(["b"]), {"b"});
    c := UploadOf(ids, ['3'], Some(["b"]), {"b"});
    assert "r" != "b" by { assert "r"[0] != "b"[0]; }
    OtherIds(ids);
  }

  /** A run of three uploads after which a fourth makes the stores disagree. */
  lemma StoresCanPart(ids: (Source, string) -> DocId) returns (run: seq<SqlCommand>, next: SqlCommand)
    requires Injective(ids)
    ensures LegalRun(run, ids) && AgreeThroughout(run) && IdentifiedCommand(next.cmd, ids) && Legal(SqlAfter(run), next)
    ensures !Agree(Step(After(Commands(run)), next.cmd).0, SqlStep(SqlAfter(run), next).0)
  {
    var a, b, c := ExampleRivals(ids);
    run := Three(a, b, c);
    var x, y, z := RivalRun(a, b, c, ids, "t", Source("upload", "f"), "r", "b");
    next := PartHere(After(Commands(run)), SqlAfter(run), UploadOf(ids, ['4'], None, {"r", "b"}), ids, x, y, z);
  }

  /** A run of three uploads after which the stores name different current versions. */
  lemma CurrentCanPart(ids: (Source, string) -> DocId) returns (run: seq<SqlCommand>, next: SqlCommand)
    requires Injective(ids)
    ensures LegalRun(run, ids) && AgreeThroughout(run) && next.cmd.op.DoCurrent? && Legal(SqlAfter(run), next)
    ensures !AnswersAgree(After(Commands(run)), SqlAfter(run), next)
  {
    var a, b, c := ExampleRivals(ids);
    run := Three(a, b, c);
    var source, groups := Source("upload", "f"), {"r", "b"};
    var x, y, z := RivalRun(a, b, c, ids, "t", source, "r", "b");
    next := AskHere(After(Commands(run)), SqlAfter(run), "t", source, groups, x, y, z);
  }

  lemma AskHere(s: Mem.Store, t: Table, tenant: string, source: Source, groups: set<string>, x: Row, y: Row, z: Row)
    returns (c: SqlCommand)
    requires Agree(s, t) && s.rows == [x] + [y] + [z]
    requires IsVersion(x, tenant, source, groups) && IsVersion(z, tenant, source, groups)
    requires IsReady(x) && !IsReady(y) && IsReady(z) && x.createdAt < z.createdAt
    ensures c.cmd.op == DoCurrent(tenant, source, groups) && Legal(t, c) && !AnswersAgree(s, t, c)
  {
    ThreeReady(s, x, y, z, tenant, source, groups);
    var ready := ReadyRows(s, tenant, source, groups);
    assert x in ready && z in ready;
    var f := ReadyRowOf(s, t, tenant, source, groups, z);
    c := SqlCommand(Command(DoCurrent(tenant, source, groups), 4), Some(f));
    SameRank(f, z);
    forall q | q in ReadyVersions(t.docs, tenant, source, groups) ensures Newer(f, q) {
      var r := ReadyFromSql(s, t, tenant, source, groups, q);
      SameRank(q, r);
    }
    assert !Newer(x, z);
    CurrentAgreesIff(s, t, c);
  }

  lemma OtherIds(ids: (Source, string) -> DocId)
    requires Injective(ids)
    ensures forall x: char, y: char :: x != y ==> ids(Source("upload", "f"), [x]) != ids(Source("upload", "f"), [y])
  {
    forall x: char, y: char | x != y ensures ids(Source("upload", "f"), [x]) != ids(Source("upload", "f"), [y]) {
      OtherId(ids, x, y);
    }
  }

  lemma LegalThree(a: Upload, b: Upload, c: Upload, ids: (Source, string) -> DocId)
    requires a.acl.Some? && b.acl.Some? && c.acl.Some?
    requires a.docId == ids(a.Origin(), a.sha) && b.docId == ids(b.Origin(), b.sha) && c.docId == ids(c.Origin(), c.sha)
    ensures LegalRun(Three(a, b, c), ids) && SameAcls(Three(a, b, c))
  {
    LegalNext([], a, 1, ids);
    assert [] + [Sent(a, 1)] == [Sent(a, 1)];
    LegalNext([Sent(a, 1)], b, 2, ids);
    LegalNext([Sent(a, 1)] + [Sent(b, 2)], c, 3, ids);
  }

  lemma KeyIsNew(rows: seq<Row>, x: Row, y: Row, z: Row, key: Key)
    requires rows == [x] + [y] + [z] && x.docId != key.docId && y.docId != key.docId && z.docId != key.docId
    ensures key !in Mem.KeysOf(rows)
  {
    Mem.KeysOfMember(rows, key);
  }

  lemma PartHere(s: Mem.Store, t: Table, u: Upload, ids: (Source, string) -> DocId, x: Row, y: Row, z: Row) returns (c: SqlCommand)
    requires Agree(s, t) && Injective(ids) && Identified(s, ids) && u.docId == ids(u.Origin(), u.sha)
    requires u.acl == None && u.chunks != [] && s.rows == [x] + [y] + [z]
    requires u.docId != x.docId && u.docId != y.docId && u.docId != z.docId
    requires IsVersion(x, u.tenant, u.Origin(), u.groups) && IsVersion(z, u.tenant, u.Origin(), u.groups)
    requires IsReady(x) && !IsReady(y) && IsReady(z) && x.version < z.version && x.allowedGroups != z.allowedGroups
    ensures IdentifiedCommand(c.cmd, ids) && Legal(t, c) && !Agree(Step(s, c.cmd).0, SqlStep(t, c).0)
  {
    ThreeReady(s, x, y, z, u.tenant, u.Origin(), u.groups);
    NewerIsFetched(s, t, u, x, z);
    assert u.Key() !in t.docs by { KeyIsNew(s.rows, x, y, z, u.Key()); }
    c := SqlCommand(Command(DoPersist(u), 4), Some(t.docs[z.Key()]));
    AmbiguousAclParts(s, t, c, ids, x, z);
  }
}
