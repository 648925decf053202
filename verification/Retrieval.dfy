/** Ranking and the evidence gate: the Python half of search_hybrid (persistence.py),
    reranker.py and query.py. Ranked rows with their scores come from the database. */
module Retrieval {
  import opened Sequences
  import opened Arithmetic
  import opened Sorting
  import opened Cosine

  type Id = nat

  /** A chunk as the searches return it; `terms` are its distinct lower-case words. */
  datatype Chunk = Chunk(id: Id, tenant: string, docId: nat, index: nat, terms: set<string>)

  datatype Row = Row(chunk: Chunk, score: Option<real>)

  datatype Candidate = Candidate(
    chunk: Chunk, semanticScore: real, keywordScore: real, semanticRank: Option<nat>, keywordRank: Option<nat>)

  datatype Hit = Hit(chunk: Chunk, score: real)

  function OrZero(x: Option<real>): real { if x.Some? then x.value else 0.0 }

  /* ---- fusion ---- */

  function IndexOf(rows: seq<Row>, id: Id): (i: Option<nat>)
    ensures i.Some? ==> i.value < |rows| && rows[i.value].chunk.id == id
    ensures i.None? ==> forall k :: 0 <= k < |rows| ==> rows[k].chunk.id != id
  {
    if rows == [] then None
    else if Last(rows).chunk.id == id then Some(|rows| - 1)
    else
      assert forall k :: 0 <= k < |rows| - 1 ==> Init(rows)[k] == rows[k];
      IndexOf(Init(rows), id)
  }

  function RankOf(rows: seq<Row>, id: Id): Option<nat> {
    match IndexOf(rows, id)
    case None => None
    case Some(i) => Some(i + 1)
  }

  function ScoreOf(rows: seq<Row>, id: Id): real {
    match IndexOf(rows, id)
    case None => 0.0
    case Some(i) => OrZero(rows[i].score)
  }

  /** What the fused candidate of an id must say: its score and rank in each search. */
  function Fused(semantic: seq<Row>, keyword: seq<Row>, chunk: Chunk): Candidate {
    Candidate(chunk, ScoreOf(semantic, chunk.id), ScoreOf(keyword, chunk.id), RankOf(semantic, chunk.id), RankOf(keyword, chunk.id))
  }

  ghost predicate DistinctIds(rows: seq<Row>) {
    forall i, j :: 0 <= i < j < |rows| ==> rows[i].chunk.id != rows[j].chunk.id
  }

  /** An id names one chunk, in both result lists. */
  ghost predicate SameChunks(semantic: seq<Row>, keyword: seq<Row>) {
    forall i, j :: 0 <= i < |semantic| && 0 <= j < |keyword| && semantic[i].chunk.id == keyword[j].chunk.id
      ==> semantic[i].chunk == keyword[j].chunk
  }

  lemma IndexUnique(rows: seq<Row>, i: nat)
    requires DistinctIds(rows) && i < |rows|
    ensures IndexOf(rows, rows[i].chunk.id) == Some(i)
  {
  }

  lemma IndexPrefix(rows: seq<Row>, n: nat, id: Id)
    requires DistinctIds(rows) && n <= |rows|
    ensures IndexOf(rows[..n], id) == match IndexOf(rows, id)
              case Some(i) => if i < n then Some(i) else None
              case None => None
  {
    assert DistinctIds(rows[..n]);
    match IndexOf(rows, id)
    case Some(i) => if i < n { IndexUnique(rows[..n], i); }
    case None =>
  }

  ghost predicate Has(cs: seq<Candidate>, chunk: Chunk) {
    exists i :: 0 <= i < |cs| && cs[i].chunk == chunk
  }

  lemma HasAfter(cs: seq<Candidate>, cs': seq<Candidate>, chunk: Chunk)
    requires |cs| <= |cs'| && forall i :: 0 <= i < |cs| ==> cs'[i].chunk == cs[i].chunk
    ensures Has(cs, chunk) ==> Has(cs', chunk)
  {
    if Has(cs, chunk) {
      var i :| 0 <= i < |cs| && cs[i].chunk == chunk;
      assert cs'[i].chunk == chunk;
    }
  }

  lemma HasAll(rows: seq<Row>, cs: seq<Candidate>, cs': seq<Candidate>, n: nat)
    requires n <= |rows| && forall k :: 0 <= k < n ==> Has(cs, rows[k].chunk)
    requires |cs| <= |cs'| && forall i :: 0 <= i < |cs| ==> cs'[i].chunk == cs[i].chunk
    ensures forall k :: 0 <= k < n ==> Has(cs', rows[k].chunk)
  {
    forall k | 0 <= k < n ensures Has(cs', rows[k].chunk) {
      HasAfter(cs, cs', rows[k].chunk);
    }
  }

  /** The candidates after the first `m` keyword rows: one per id seen so far. */
  ghost predicate Merged(semantic: seq<Row>, keyword: seq<Row>, m: nat, cs: seq<Candidate>)
    requires m <= |keyword|
  {
    && (forall i :: 0 <= i < |cs| ==> cs[i] == Fused(semantic, keyword[..m], cs[i].chunk))
    && (forall i, j :: 0 <= i < j < |cs| ==> cs[i].chunk.id != cs[j].chunk.id)
    && (forall i :: 0 <= i < |cs| ==> cs[i].semanticRank.Some? || cs[i].keywordRank.Some?)
    && (forall k :: 0 <= k < |semantic| ==> Has(cs, semantic[k].chunk))
    && (forall k :: 0 <= k < m ==> Has(cs, keyword[k].chunk))
  }

  /** The first loop of the fusion. */
  method FromSemantic(semantic: seq<Row>, keyword: seq<Row>) returns (cs: seq<Candidate>)
    requires DistinctIds(semantic)
    ensures Merged(semantic, keyword, 0, cs)
  {
    cs := [];
    var k := 0;
    while k < |semantic|
      invariant 0 <= k <= |semantic| && |cs| == k
      invariant forall i :: 0 <= i < k ==> cs[i].chunk == semantic[i].chunk && cs[i] == Fused(semantic, keyword[..0], cs[i].chunk)
    {
      IndexUnique(semantic, k);
      cs := cs + [Candidate(semantic[k].chunk, OrZero(semantic[k].score), 0.0, Some(k + 1), None)];
      k := k + 1;
    }
    forall i | 0 <= i < |cs| ensures cs[i].semanticRank.Some? {
      IndexUnique(semantic, i);
    }
    forall n | 0 <= n < |semantic| ensures Has(cs, semantic[n].chunk) {
      assert cs[n].chunk == semantic[n].chunk;
    }
  }

  /** The position of an id among the candidates. */
  method Find(cs: seq<Candidate>, id: Id) returns (at: Option<nat>)
    ensures at.Some? ==> at.value < |cs| && cs[at.value].chunk.id == id
    ensures at.None? ==> forall i :: 0 <= i < |cs| ==> cs[i].chunk.id != id
  {
    var i := 0;
    while i < |cs|
      invariant 0 <= i <= |cs| && forall j :: 0 <= j < i ==> cs[j].chunk.id != id
    {
      if cs[i].chunk.id == id {
        return Some(i);
      }
      i := i + 1;
    }
    return None;
  }

  lemma FusedNext(semantic: seq<Row>, keyword: seq<Row>, m: nat, chunk: Chunk)
    requires DistinctIds(keyword) && m < |keyword|
    ensures chunk.id != keyword[m].chunk.id ==> Fused(semantic, keyword[..m + 1], chunk) == Fused(semantic, keyword[..m], chunk)
    ensures chunk.id == keyword[m].chunk.id ==>
              Fused(semantic, keyword[..m + 1], chunk)
              == Fused(semantic, keyword[..m], chunk).(keywordScore := OrZero(keyword[m].score), keywordRank := Some(m + 1))
  {
    IndexPrefix(keyword, m, chunk.id);
    IndexPrefix(keyword, m + 1, chunk.id);
    IndexUnique(keyword, m);
  }

  /** A candidate met again by the keyword search came from the semantic one, as the same chunk. */
  lemma SecondMeeting(semantic: seq<Row>, keyword: seq<Row>, m: nat, cs: seq<Candidate>, at: nat)
    requires DistinctIds(keyword) && SameChunks(semantic, keyword) && m < |keyword| && at < |cs|
    requires Merged(semantic, keyword, m, cs) && cs[at].chunk.id == keyword[m].chunk.id
    ensures cs[at].chunk == keyword[m].chunk
  {
    IndexPrefix(keyword, m, cs[at].chunk.id);
    IndexUnique(keyword, m);
    assert cs[at].semanticRank.Some?;
    var k := IndexOf(semantic, cs[at].chunk.id).value;
    assert Has(cs, semantic[k].chunk);
    var i :| 0 <= i < |cs| && cs[i].chunk == semantic[k].chunk;
    assert i == at;
  }

  lemma MergedUpdate(semantic: seq<Row>, keyword: seq<Row>, m: nat, cs: seq<Candidate>, at: nat, cs': seq<Candidate>)
    requires DistinctIds(keyword) && SameChunks(semantic, keyword) && m < |keyword| && at < |cs|
    requires Merged(semantic, keyword, m, cs) && cs[at].chunk.id == keyword[m].chunk.id
    requires cs' == cs[at := cs[at].(keywordScore := OrZero(keyword[m].score), keywordRank := Some(m + 1))]
    ensures Merged(semantic, keyword, m + 1, cs')
  {
    forall i | 0 <= i < |cs'| ensures cs'[i] == Fused(semantic, keyword[..m + 1], cs'[i].chunk) {
      FusedNext(semantic, keyword, m, cs[i].chunk);
    }
    SecondMeeting(semantic, keyword, m, cs, at);
    assert Has(cs', keyword[m].chunk) by { assert cs'[at].chunk == keyword[m].chunk; }
    HasAll(semantic, cs, cs', |semantic|);
    HasAll(keyword, cs, cs', m);
  }

  lemma NotSemantic(semantic: seq<Row>, cs: seq<Candidate>, id: Id)
    requires forall k :: 0 <= k < |semantic| ==> Has(cs, semantic[k].chunk)
    requires forall i :: 0 <= i < |cs| ==> cs[i].chunk.id != id
    ensures IndexOf(semantic, id) == None
  {
    forall k | 0 <= k < |semantic| ensures semantic[k].chunk.id != id {
      assert Has(cs, semantic[k].chunk);
    }
  }

  lemma NewCandidate(semantic: seq<Row>, keyword: seq<Row>, m: nat, c: Candidate)
    requires DistinctIds(keyword) && m < |keyword| && IndexOf(semantic, keyword[m].chunk.id) == None
    requires c == Candidate(keyword[m].chunk, 0.0, OrZero(keyword[m].score), None, Some(m + 1))
    ensures c == Fused(semantic, keyword[..m + 1], c.chunk)
  {
    FusedNext(semantic, keyword, m, c.chunk);
  }

  lemma MergedAdd(semantic: seq<Row>, keyword: seq<Row>, m: nat, cs: seq<Candidate>, c: Candidate)
    requires DistinctIds(keyword) && m < |keyword|
    requires Merged(semantic, keyword, m, cs) && forall i :: 0 <= i < |cs| ==> cs[i].chunk.id != keyword[m].chunk.id
    requires c == Candidate(keyword[m].chunk, 0.0, OrZero(keyword[m].score), None, Some(m + 1))
    ensures Merged(semantic, keyword, m + 1, cs + [c])
  {
    var cs' := cs + [c];
    forall i | 0 <= i < |cs| ensures cs'[i] == Fused(semantic, keyword[..m + 1], cs'[i].chunk) {
      FusedNext(semantic, keyword, m, cs[i].chunk);
    }
    NotSemantic(semantic, cs, c.chunk.id);
    NewCandidate(semantic, keyword, m, c);
    assert Has(cs', keyword[m].chunk) by { assert cs'[|cs|].chunk == keyword[m].chunk; }
    HasAll(semantic, cs, cs', |semantic|);
    HasAll(keyword, cs, cs', m);
  }

  /** The second loop of the fusion: meet a chunk again, or add it. */
  method MergeRow(semantic: seq<Row>, keyword: seq<Row>, m: nat, before: seq<Candidate>) returns (cs: seq<Candidate>)
    requires DistinctIds(keyword) && SameChunks(semantic, keyword) && m < |keyword| && Merged(semantic, keyword, m, before)
    ensures Merged(semantic, keyword, m + 1, cs)
  {
    var row := keyword[m];
    var at := Find(before, row.chunk.id);
    if at.Some? {
      cs := before[at.value := before[at.value].(keywordScore := OrZero(row.score), keywordRank := Some(m + 1))];
      MergedUpdate(semantic, keyword, m, before, at.value, cs);
    } else {
      var candidate := Candidate(row.chunk, 0.0, OrZero(row.score), None, Some(m + 1));
      MergedAdd(semantic, keyword, m, before, candidate);
      cs := before + [candidate];
    }
  }

  /** Every chunk found by either search becomes exactly one candidate, which carries its
      score and rank in both. */
  method Merge(semantic: seq<Row>, keyword: seq<Row>) returns (cs: seq<Candidate>)
    requires DistinctIds(semantic) && DistinctIds(keyword) && SameChunks(semantic, keyword)
    ensures Merged(semantic, keyword, |keyword|, cs)
  {
    cs := FromSemantic(semantic, keyword);
    var m := 0;
    while m < |keyword|
      invariant 0 <= m <= |keyword| && Merged(semantic, keyword, m, cs)
    {
      cs := MergeRow(semantic, keyword, m, cs);
      m := m + 1;
    }
  }

  /* ---- scores ---- */

  /** The share of query terms that a chunk contains. */
  function Overlap(query: set<string>, terms: set<string>): real {
    |query * terms| as real / (if |query| == 0 then 1 else |query|) as real
  }

  function RankSignal(c: Candidate, candidateLimit: nat): real {
    var s := if c.semanticRank.Some? then c.semanticRank.value else candidateLimit + 1;
    var k := if c.keywordRank.Some? then c.keywordRank.value else candidateLimit + 1;
    61.0 * (0.65 / (60.0 + s as real) + 0.25 / (60.0 + k as real))
  }

  function MaxKeyword(cs: seq<Candidate>): real {
    if cs == [] then 0.0
    else if |cs| == 1 then cs[0].keywordScore
    else MaxReal(MaxKeyword(Init(cs)), Last(cs).keywordScore)
  }

  function FusedScore(c: Candidate, maxKeyword: real, query: set<string>, candidateLimit: nat): real {
    0.60 * c.semanticScore + 0.25 * (if maxKeyword != 0.0 then c.keywordScore / maxKeyword else 0.0)
    + 0.10 * Overlap(query, c.chunk.terms) + 0.05 * RankSignal(c, candidateLimit)
  }

  lemma OverlapBounds(query: set<string>, terms: set<string>)
    ensures 0.0 <= Overlap(query, terms) <= 1.0
  {
    SubsetSize(query * terms, query);
    UnitQuotient(|query * terms| as real, (if |query| == 0 then 1 else |query|) as real);
  }

  lemma {:induction false} SubsetSize<T>(s: set<T>, t: set<T>)
    requires s <= t
    ensures |s| <= |t|
  {
    if s != {} {
      var x :| x in s;
      SubsetSize(s - {x}, t - {x});
    }
  }

  lemma ReciprocalBounds(n: nat)
    requires n >= 1
    ensures 0.0 < 1.0 / (60.0 + n as real) <= 1.0 / 61.0
  {
  }

  lemma RankSignalBounds(c: Candidate, candidateLimit: nat)
    requires c.semanticRank.Some? ==> c.semanticRank.value >= 1
    requires c.keywordRank.Some? ==> c.keywordRank.value >= 1
    ensures 0.0 < RankSignal(c, candidateLimit) <= 0.9
  {
    var s := if c.semanticRank.Some? then c.semanticRank.value else candidateLimit + 1;
    var k := if c.keywordRank.Some? then c.keywordRank.value else candidateLimit + 1;
    ReciprocalBounds(s);
    ReciprocalBounds(k);
    assert 0.65 / (60.0 + s as real) == 0.65 * (1.0 / (60.0 + s as real));
    assert 0.25 / (60.0 + k as real) == 0.25 * (1.0 / (60.0 + k as real));
  }

  lemma {:induction false} MaxKeywordBounds(cs: seq<Candidate>)
    requires forall i :: 0 <= i < |cs| ==> cs[i].keywordScore >= 0.0
    ensures MaxKeyword(cs) >= 0.0 && forall i :: 0 <= i < |cs| ==> cs[i].keywordScore <= MaxKeyword(cs)
  {
    if |cs| > 1 {
      MaxKeywordBounds(Init(cs));
      assert forall i :: 0 <= i < |cs| - 1 ==> cs[i] == Init(cs)[i];
    }
  }

  /** Cosine similarities lie in [-1, 1] and keyword ranks are not negative. */
  ghost predicate SearchScores(semantic: seq<Row>, keyword: seq<Row>) {
    && (forall i :: 0 <= i < |semantic| ==> -1.0 <= OrZero(semantic[i].score) <= 1.0)
    && (forall i :: 0 <= i < |keyword| ==> OrZero(keyword[i].score) >= 0.0)
  }

  /** Fused scores never exceed 1, and are negative only for a negative similarity. */
  lemma FusedScoreBounds(semantic: seq<Row>, keyword: seq<Row>, cs: seq<Candidate>, i: nat, query: set<string>, candidateLimit: nat)
    requires Merged(semantic, keyword, |keyword|, cs) && SearchScores(semantic, keyword) && i < |cs|
    ensures 0.60 * cs[i].semanticScore <= FusedScore(cs[i], MaxKeyword(cs), query, candidateLimit) <= 1.0
    ensures -0.60 <= FusedScore(cs[i], MaxKeyword(cs), query, candidateLimit)
  {
    assert keyword[..|keyword|] == keyword;
    forall j | 0 <= j < |cs| ensures cs[j].keywordScore >= 0.0 {
      CandidateBounds(semantic, keyword, cs[j]);
    }
    CandidateBounds(semantic, keyword, cs[i]);
    MaxKeywordBounds(cs);
    OneScoreBounds(cs[i], MaxKeyword(cs), query, candidateLimit);
  }

  lemma CandidateBounds(semantic: seq<Row>, keyword: seq<Row>, c: Candidate)
    requires SearchScores(semantic, keyword) && c == Fused(semantic, keyword, c.chunk)
    ensures -1.0 <= c.semanticScore <= 1.0 && c.keywordScore >= 0.0
    ensures c.semanticRank.Some? ==> c.semanticRank.value >= 1
    ensures c.keywordRank.Some? ==> c.keywordRank.value >= 1
  {
  }

  lemma OneScoreBounds(c: Candidate, maxKeyword: real, query: set<string>, candidateLimit: nat)
    requires -1.0 <= c.semanticScore <= 1.0 && 0.0 <= c.keywordScore <= maxKeyword
    requires c.semanticRank.Some? ==> c.semanticRank.value >= 1
    requires c.keywordRank.Some? ==> c.keywordRank.value >= 1
    ensures 0.60 * c.semanticScore <= FusedScore(c, maxKeyword, query, candidateLimit) <= 1.0
  {
    OverlapBounds(query, c.chunk.terms);
    RankSignalBounds(c, candidateLimit);
    if maxKeyword != 0.0 {
      UnitQuotient(c.keywordScore, maxKeyword);
    }
  }

  /** ORDER: best score first, then document, then position. */
  predicate Outranks(a: Hit, b: Hit) {
    || a.score > b.score
    || (a.score == b.score && (a.chunk.docId < b.chunk.docId || (a.chunk.docId == b.chunk.docId && a.chunk.index <= b.chunk.index)))
  }

  function Scored(cs: seq<Candidate>, query: set<string>, candidateLimit: nat): seq<Hit> {
    var maxKeyword := MaxKeyword(cs);
    Map((c: Candidate) => Hit(c.chunk, FusedScore(c, maxKeyword, query, candidateLimit)), cs)
  }

  /** `hits` are the best of the fused candidates of these rows. */
  ghost predicate Answers(semantic: seq<Row>, keyword: seq<Row>, query: set<string>, limit: nat, candidateLimit: nat, hits: seq<Hit>) {
    exists cs: seq<Candidate> :: Merged(semantic, keyword, |keyword|, cs) && Best(Outranks, Scored(cs, query, candidateLimit), limit, hits)
  }

  method SearchHybrid(semantic: seq<Row>, keyword: seq<Row>, query: set<string>, limit: nat, candidateLimit: nat)
    returns (hits: seq<Hit>)
    requires DistinctIds(semantic) && DistinctIds(keyword) && SameChunks(semantic, keyword)
    ensures Answers(semantic, keyword, query, limit, candidateLimit, hits)
  {
    var cs := Merge(semantic, keyword);
    hits := FirstN(SortBy(Outranks, Scored(cs, query, candidateLimit)), limit);
    HybridTopK(Scored(cs, query, candidateLimit), limit);
  }

  /** `hits` are the best `limit` of `scored`, best first: nothing left out beats what is kept. */
  ghost predicate Best(before: (Hit, Hit) -> bool, scored: seq<Hit>, limit: nat, hits: seq<Hit>) {
    && SortedBy(before, hits) && multiset(hits) <= multiset(scored)
    && |hits| == (if limit <= |scored| then limit else |scored|)
    && forall h, x :: h in hits && x in multiset(scored) - multiset(hits) ==> before(h, x)
  }

  lemma TopK(before: (Hit, Hit) -> bool, scored: seq<Hit>, limit: nat)
    requires Order(before)
    ensures Best(before, scored, limit, FirstN(SortBy(before, scored), limit))
  {
    var sorted := SortBy(before, scored);
    SortCorrect(before, scored);
    SortMembers(before, scored);
    SplitSorted(before, sorted, FirstN(sorted, limit));
  }

  /** The search returns the best candidates, best first. */
  lemma HybridTopK(scored: seq<Hit>, limit: nat)
    ensures Best(Outranks, scored, limit, FirstN(SortBy(Outranks, scored), limit))
  {
    TopK(Outranks, scored, limit);
  }

  lemma SplitSorted(before: (Hit, Hit) -> bool, sorted: seq<Hit>, hits: seq<Hit>)
    requires SortedBy(before, sorted) && |hits| <= |sorted| && hits == sorted[..|hits|]
    ensures SortedBy(before, hits) && multiset(hits) <= multiset(sorted)
    ensures forall h, x :: h in hits && x in multiset(sorted) - multiset(hits) ==> before(h, x)
  {
    var rest := sorted[|hits|..];
    assert multiset(sorted) == multiset(hits) + multiset(rest) by { assert sorted == hits + rest; }
    forall h, x | h in hits && x in rest ensures before(h, x) {
      var i :| 0 <= i < |hits| && hits[i] == h;
      var j :| 0 <= j < |rest| && rest[j] == x;
      assert sorted[i] == h && sorted[|hits| + j] == x;
    }
  }

  /* ---- the fallback reranker ---- */

  function FallbackScore(query: set<string>, h: Hit): real {
    0.9 * MinReal(MaxReal(h.score, 0.0), 1.0) + 0.1 * Overlap(query, h.chunk.terms)
  }

  predicate HigherScore(a: Hit, b: Hit) { a.score >= b.score }

  function Rescored(query: set<string>): Hit -> Hit { (h: Hit) => h.(score := FallbackScore(query, h)) }

  function Rerank(query: set<string>, hits: seq<Hit>): seq<Hit> {
    SortBy(HigherScore, Map(Rescored(query), hits))
  }

  /** Whatever the incoming scores, reranking yields a sorted permutation of the rescored
      rows with scores in [0, 1]. */
  lemma RerankCorrect(query: set<string>, hits: seq<Hit>)
    ensures SortedBy(HigherScore, Rerank(query, hits))
    ensures multiset(Rerank(query, hits)) == multiset(Map(Rescored(query), hits))
    ensures forall h :: h in Rerank(query, hits) ==> 0.0 <= h.score <= 1.0
  {
    var rescored := Map(Rescored(query), hits);
    SortCorrect(HigherScore, rescored);
    SortMembers(HigherScore, rescored);
    forall h | h in rescored ensures 0.0 <= h.score <= 1.0 {
      var i :| 0 <= i < |hits| && rescored[i] == h;
      OverlapBounds(query, hits[i].chunk.terms);
    }
  }

  /** A chunk that contains more of the query and scored no lower is not ranked lower. */
  lemma RerankMonotone(query: set<string>, a: Hit, b: Hit)
    requires a.score >= b.score && query * b.chunk.terms <= a.chunk.terms
    ensures FallbackScore(query, a) >= FallbackScore(query, b)
  {
    SubsetSize(query * b.chunk.terms, query * a.chunk.terms);
    var n := if |query| == 0 then 1 else |query|;
    DivideMonotone(|query * b.chunk.terms| as real, |query * a.chunk.terms| as real, n as real);
  }

  /* ---- the evidence gate ---- */

  function Admitted(tenant: string, minScore: real): Hit -> bool {
    (h: Hit) => h.chunk.tenant == tenant && h.score >= minScore
  }

  function AboveFloor(floor: real): Hit -> bool { (h: Hit) => h.score >= floor }

  function MaxScore(hits: seq<Hit>): real
    requires hits != []
  {
    if |hits| == 1 then hits[0].score else MaxReal(MaxScore(Init(hits)), Last(hits).score)
  }

  /** Runners-up must reach this share of the best admitted score. */
  function FloorOf(admitted: seq<Hit>, relative: real): real
    requires admitted != []
  {
    MaxScore(admitted) * relative
  }

  function Evidence(hits: seq<Hit>, topK: nat, tenant: string, minScore: real, relative: real): seq<Hit> {
    var admitted := Top(hits, topK, tenant, minScore);
    if admitted == [] then [] else Filter(AboveFloor(FloorOf(admitted, relative)), admitted)
  }

  lemma {:induction false} MaxScoreIsMax(hits: seq<Hit>)
    requires hits != []
    ensures forall h :: h in hits ==> h.score <= MaxScore(hits)
    ensures exists h :: h in hits && h.score == MaxScore(hits)
  {
    assert hits == Init(hits) + [Last(hits)];
    if |hits| > 1 {
      MaxScoreIsMax(Init(hits));
      if MaxScore(hits) == Last(hits).score {
        assert Last(hits) in hits;
      } else {
        var h :| h in Init(hits) && h.score == MaxScore(Init(hits));
        assert h in hits;
      }
    } else {
      assert hits[0] in hits;
    }
  }

  lemma ScaleDown(x: real, k: real)
    requires x >= 0.0 && 0.0 <= k <= 1.0
    ensures x * k <= x
  {
    ProductNonNegative(x, 1.0 - k);
    assert x * (1.0 - k) == x - x * k;
  }

  predicate Kept(h: Hit, tenant: string, minScore: real, floor: real) {
    h.chunk.tenant == tenant && h.score >= minScore && h.score >= floor
  }

  function KeptBy(tenant: string, minScore: real, floor: real): Hit -> bool {
    (h: Hit) => Kept(h, tenant, minScore, floor)
  }

  function Top(hits: seq<Hit>, topK: nat, tenant: string, minScore: real): seq<Hit> {
    Filter(Admitted(tenant, minScore), FirstN(hits, topK))
  }

  lemma FloorFilter(top: seq<Hit>, tenant: string, minScore: real, floor: real)
    ensures Filter(AboveFloor(floor), Filter(Admitted(tenant, minScore), top)) == Filter(KeptBy(tenant, minScore, floor), top)
  {
    FilterMember(Admitted(tenant, minScore), top);
    FilterSame(AboveFloor(floor), KeptBy(tenant, minScore, floor), Filter(Admitted(tenant, minScore), top));
    FilterAbsorb(Admitted(tenant, minScore), KeptBy(tenant, minScore, floor), top);
  }

  lemma AdmittedBest(hits: seq<Hit>, topK: nat, tenant: string, minScore: real)
    requires 0.0 <= minScore && Top(hits, topK, tenant, minScore) != []
    ensures MaxScore(Top(hits, topK, tenant, minScore)) >= 0.0
  {
    var admitted := Top(hits, topK, tenant, minScore);
    FilterMember(Admitted(tenant, minScore), FirstN(hits, topK));
    MaxScoreIsMax(admitted);
    var best :| best in admitted && best.score == MaxScore(admitted);
  }

  /** The gate is one filter over the top k: tenant, threshold, and a floor relative to the
      best admitted score; so it returns an order-preserving part of the top k. */
  lemma GateIsFilter(hits: seq<Hit>, topK: nat, tenant: string, minScore: real, relative: real)
    requires Top(hits, topK, tenant, minScore) != []
    ensures Evidence(hits, topK, tenant, minScore, relative)
         == Filter(KeptBy(tenant, minScore, FloorOf(Top(hits, topK, tenant, minScore), relative)), FirstN(hits, topK))
  {
    FloorFilter(FirstN(hits, topK), tenant, minScore, FloorOf(Top(hits, topK, tenant, minScore), relative));
  }

  /** Every best-scored admitted chunk passes, so the gate answers exactly when anything is admitted. */
  lemma GateKeepsBest(hits: seq<Hit>, topK: nat, tenant: string, minScore: real, relative: real)
    requires 0.0 <= minScore && 0.0 <= relative <= 1.0
    ensures Evidence(hits, topK, tenant, minScore, relative) == [] <==> Top(hits, topK, tenant, minScore) == []
    ensures forall h :: h in Top(hits, topK, tenant, minScore)
              && (forall x :: x in Top(hits, topK, tenant, minScore) ==> x.score <= h.score)
              ==> h in Evidence(hits, topK, tenant, minScore, relative)
  {
    var admitted := Top(hits, topK, tenant, minScore);
    if admitted != [] {
      AdmittedBest(hits, topK, tenant, minScore);
      ScaleDown(MaxScore(admitted), relative);
      BestPasses(admitted, FloorOf(admitted, relative));
    }
  }

  lemma BestPasses(admitted: seq<Hit>, floor: real)
    requires admitted != [] && floor <= MaxScore(admitted)
    ensures Filter(AboveFloor(floor), admitted) != []
    ensures forall h :: h in admitted && (forall x :: x in admitted ==> x.score <= h.score)
              ==> h in Filter(AboveFloor(floor), admitted)
  {
    FilterMember(AboveFloor(floor), admitted);
    MaxScoreIsMax(admitted);
  }

  lemma StrictFilters(top: seq<Hit>, tenant: string, min: real, floor: real, min': real, floor': real)
    requires min <= min' && floor <= floor'
    ensures Filter(KeptBy(tenant, min', floor'), Filter(KeptBy(tenant, min, floor), top))
         == Filter(KeptBy(tenant, min', floor'), top)
  {
    FilterAbsorb(KeptBy(tenant, min, floor), KeptBy(tenant, min', floor'), top);
  }

  /** Raising either threshold only drops chunks: the stricter result is a filter of the laxer one. */
  lemma GateMonotone(hits: seq<Hit>, topK: nat, tenant: string, min: real, relative: real, min': real, relative': real)
    requires 0.0 <= min <= min' && 0.0 <= relative <= relative' <= 1.0
    ensures exists p :: Evidence(hits, topK, tenant, min', relative') == Filter(p, Evidence(hits, topK, tenant, min, relative))
  {
    if Top(hits, topK, tenant, min') == [] {
      var lax, none := Evidence(hits, topK, tenant, min, relative), (h: Hit) => false;
      FilterNone(none, lax);
      assert Evidence(hits, topK, tenant, min', relative') == Filter(none, lax);
    } else {
      GateNarrows(hits, topK, tenant, min, relative, min', relative');
    }
  }

  lemma GateNarrows(hits: seq<Hit>, topK: nat, tenant: string, min: real, relative: real, min': real, relative': real)
    requires 0.0 <= min <= min' && 0.0 <= relative <= relative' <= 1.0 && Top(hits, topK, tenant, min') != []
    ensures Evidence(hits, topK, tenant, min', relative')
         == Filter(KeptBy(tenant, min', FloorOf(Top(hits, topK, tenant, min'), relative')), Evidence(hits, topK, tenant, min, relative))
  {
    SameBest(FirstN(hits, topK), tenant, min, min');
    var lax, strict := Top(hits, topK, tenant, min), Top(hits, topK, tenant, min');
    assert FloorOf(lax, relative) <= FloorOf(strict, relative') by { FloorRises(lax, strict, relative, relative'); }
    GateIsFilter(hits, topK, tenant, min, relative);
    GateIsFilter(hits, topK, tenant, min', relative');
    StrictFilters(FirstN(hits, topK), tenant, min, FloorOf(lax, relative), min', FloorOf(strict, relative'));
  }

  /** While anything is admitted, the best admitted score does not depend on the threshold. */
  lemma SameBest(top: seq<Hit>, tenant: string, min: real, min': real)
    requires 0.0 <= min <= min' && Filter(Admitted(tenant, min'), top) != []
    ensures Filter(Admitted(tenant, min), top) != []
    ensures MaxScore(Filter(Admitted(tenant, min), top)) == MaxScore(Filter(Admitted(tenant, min'), top)) >= 0.0
  {
    var lax, strict := Filter(Admitted(tenant, min), top), Filter(Admitted(tenant, min'), top);
    FilterMember(Admitted(tenant, min), top);
    FilterMember(Admitted(tenant, min'), top);
    MaxScoreIsMax(strict);
    var s :| s in strict && s.score == MaxScore(strict);
    assert s in lax;
    MaxScoreIsMax(lax);
    var l :| l in lax && l.score == MaxScore(lax);
    assert l in strict;
  }

  lemma FloorRises(lax: seq<Hit>, strict: seq<Hit>, k: real, k': real)
    requires lax != [] && strict != [] && MaxScore(lax) == MaxScore(strict) >= 0.0 && k <= k'
    ensures FloorOf(lax, k) <= FloorOf(strict, k')
  {
    ScaleBy(k, k', MaxScore(lax));
  }

  /* ---- both retrieval paths ---- */

  /** Lexical path: tenant chunks scored by cosine, best first, ties by position. */
  predicate LexicalOrder(a: Hit, b: Hit) {
    a.score > b.score || (a.score == b.score && a.chunk.index <= b.chunk.index)
  }

  ghost predicate Norm(norm: Counts -> real) {
    forall m: Counts :: IsRoot(norm(m), SquareSum(m))
  }

  function OfTenant(tenant: string): Chunk -> bool { (c: Chunk) => c.tenant == tenant }

  ghost function Lexical(query: Counts, counts: Chunk -> Counts, norm: Counts -> real): Chunk -> Hit {
    (c: Chunk) => Hit(c, Cosine.Cosine(query, counts(c), norm(query), norm(counts(c))))
  }

  /** _retrieve: the tenant's chunks by cosine with the query. */
  ghost function Retrieve(chunks: seq<Chunk>, tenant: string, query: Counts, counts: Chunk -> Counts,
                          norm: Counts -> real, topK: nat): seq<Hit> {
    FirstN(SortBy(LexicalOrder, Map(Lexical(query, counts, norm), Filter(OfTenant(tenant), chunks))), topK)
  }

  lemma {:induction false} TakeMember<T>(s: seq<T>, n: nat)
    ensures forall x :: x in FirstN(s, n) ==> x in s
  {
  }

  /** On the lexical path every score is in [0, 1], every chunk is the tenant's own, and the
      list is the best of the tenant's scored chunks. */
  lemma LexicalPath(chunks: seq<Chunk>, tenant: string, query: Counts, counts: Chunk -> Counts, norm: Counts -> real, topK: nat)
    requires Norm(norm)
    ensures forall h :: h in Retrieve(chunks, tenant, query, counts, norm, topK) ==>
              0.0 <= h.score <= 1.0 && h.chunk in chunks && h.chunk.tenant == tenant
    ensures Best(LexicalOrder, Map(Lexical(query, counts, norm), Filter(OfTenant(tenant), chunks)), topK,
                 Retrieve(chunks, tenant, query, counts, norm, topK))
  {
    var own := Filter(OfTenant(tenant), chunks);
    var scored := Map(Lexical(query, counts, norm), own);
    FilterMember(OfTenant(tenant), chunks);
    TopK(LexicalOrder, scored, topK);
    SortMembers(LexicalOrder, scored);
    TakeMember(SortBy(LexicalOrder, scored), topK);
    forall h | h in scored ensures 0.0 <= h.score <= 1.0 && h.chunk in own {
      var i :| 0 <= i < |own| && scored[i] == h;
      var c := counts(own[i]);
      assert IsRoot(norm(query), SquareSum(query)) && IsRoot(norm(c), SquareSum(c));
      CosineInUnitInterval(query, c, norm(query), norm(c));
    }
  }

  /** On the hybrid path the fallback reranker brings every score into [0, 1], whatever the
      fusion produced; the gate then sees sorted scores in [0, 1] on both paths. */
  lemma HybridPath(query: set<string>, fused: seq<Hit>, topK: nat, tenant: string, minScore: real, relative: real)
    ensures forall h :: h in Evidence(Rerank(query, fused), topK, tenant, minScore, relative) ==>
              0.0 <= h.score <= 1.0 && minScore <= h.score && h.chunk.tenant == tenant
  {
    var hits := Rerank(query, fused);
    RerankCorrect(query, fused);
    TakeMember(hits, topK);
    FilterMember(Admitted(tenant, minScore), FirstN(hits, topK));
    var admitted := Top(hits, topK, tenant, minScore);
    if admitted != [] {
      FilterMember(AboveFloor(FloorOf(admitted, relative)), admitted);
    }
  }
}
