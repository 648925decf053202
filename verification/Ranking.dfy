/** What the scores of Retrieval reward: each signal of the fused score and of the fallback
    reranker counts, by how much, and what that means for the order of results. */
module Ranking {
  import opened Sequences
  import opened Sorting
  import opened Arithmetic
  import opened Retrieval

  /* ---- shares of query terms ---- */

  lemma {:induction false} StrictSubsetSize<T>(s: set<T>, t: set<T>)
    requires s < t
    ensures |s| < |t|
  {
    var x :| x in t && x !in s;
    SubsetSize(s, t - {x});
  }

  /** The share is 1 with every term and 0 with none, and grows with each further term. */
  lemma OverlapMeans(query: set<string>, terms: set<string>)
    requires query != {}
    ensures Overlap(query, terms) == 1.0 <==> query <= terms
    ensures Overlap(query, terms) == 0.0 <==> query !! terms
    ensures Overlap(query, terms) * |query| as real == |query * terms| as real
  {
    assert |query| > 0;
    if query <= terms {
      assert query * terms == query;
    } else {
      StrictSubsetSize(query * terms, query);
    }
    if query !! terms {
      assert query * terms == {};
    } else {
      var w :| w in query && w in terms;
      assert w in query * terms;
    }
    OverlapFraction(|query * terms|, |query|);
  }

  lemma OverlapFraction(k: nat, n: nat)
    requires n > 0
    ensures k as real / n as real * n as real == k as real
    ensures k as real / n as real == 1.0 <==> k == n
    ensures k as real / n as real == 0.0 <==> k == 0
  {
  }

  lemma OverlapGrows(query: set<string>, a: set<string>, b: set<string>)
    requires |query * a| < |query * b|
    ensures Overlap(query, a) < Overlap(query, b)
  {
    SubsetSize(query * b, query);
    FractionGrows(|query * a|, |query * b|, |query|);
  }

  lemma FractionGrows(j: nat, k: nat, n: nat)
    requires j < k && n > 0
    ensures j as real / n as real < k as real / n as real
  {
    PositiveQuotient((k - j) as real, n as real);
    assert k as real == j as real + (k - j) as real;
    assert (j as real + (k - j) as real) / n as real == j as real / n as real + (k - j) as real / n as real;
  }

  /* ---- rank fusion ---- */

  function RankOrLast(rank: Option<nat>, candidateLimit: nat): nat {
    match rank
    case Some(r) => r
    case None => candidateLimit + 1
  }

  lemma ReciprocalGrows(a: nat, b: nat)
    requires a < b
    ensures 1.0 / (60.0 + b as real) < 1.0 / (60.0 + a as real)
  {
    ReciprocalOrder(60.0 + a as real, 60.0 + b as real);
  }

  lemma ReciprocalOrder(x: real, y: real)
    requires 0.0 < x < y
    ensures 1.0 / y < 1.0 / x
  {
    PositiveProduct(x, y);
    assert 1.0 / x - 1.0 / y == (y - x) / (x * y);
    PositiveQuotient(y - x, x * y);
  }

  /** The rank part, with its two reciprocals as numbers. */
  lemma RankParts(c: Candidate, candidateLimit: nat)
    ensures RankSignal(c, candidateLimit)
         == 61.0 * (0.65 * (1.0 / (60.0 + RankOrLast(c.semanticRank, candidateLimit) as real))
                    + 0.25 * (1.0 / (60.0 + RankOrLast(c.keywordRank, candidateLimit) as real)))
  {
    var s, k := RankOrLast(c.semanticRank, candidateLimit) as real, RankOrLast(c.keywordRank, candidateLimit) as real;
    assert 0.65 / (60.0 + s) == 0.65 * (1.0 / (60.0 + s));
    assert 0.25 / (60.0 + k) == 0.25 * (1.0 / (60.0 + k));
  }

  /** A better rank in either search, the other no worse, raises the signal; not being found
      counts as the rank after the last. */
  lemma RankSignalGrows(a: Candidate, b: Candidate, candidateLimit: nat)
    requires RankOrLast(b.semanticRank, candidateLimit) <= RankOrLast(a.semanticRank, candidateLimit)
    requires RankOrLast(b.keywordRank, candidateLimit) <= RankOrLast(a.keywordRank, candidateLimit)
    requires RankOrLast(b.semanticRank, candidateLimit) < RankOrLast(a.semanticRank, candidateLimit)
          || RankOrLast(b.keywordRank, candidateLimit) < RankOrLast(a.keywordRank, candidateLimit)
    ensures RankSignal(a, candidateLimit) < RankSignal(b, candidateLimit)
  {
    RankParts(a, candidateLimit);
    RankParts(b, candidateLimit);
    var s, s' := RankOrLast(a.semanticRank, candidateLimit), RankOrLast(b.semanticRank, candidateLimit);
    var k, k' := RankOrLast(a.keywordRank, candidateLimit), RankOrLast(b.keywordRank, candidateLimit);
    if s' < s { ReciprocalGrows(s', s); }
    if k' < k { ReciprocalGrows(k', k); }
  }

  /* ---- the fused score ---- */

  function KeywordShare(c: Candidate, maxKeyword: real): real {
    if maxKeyword != 0.0 then c.keywordScore / maxKeyword else 0.0
  }

  /** `b` is at least as good as `a` in every signal, and better in one. */
  predicate Better(a: Candidate, b: Candidate, maxKeyword: real, query: set<string>, candidateLimit: nat) {
    && a.semanticScore <= b.semanticScore && a.keywordScore <= b.keywordScore
    && |query * a.chunk.terms| <= |query * b.chunk.terms|
    && RankOrLast(b.semanticRank, candidateLimit) <= RankOrLast(a.semanticRank, candidateLimit)
    && RankOrLast(b.keywordRank, candidateLimit) <= RankOrLast(a.keywordRank, candidateLimit)
    && (|| a.semanticScore < b.semanticScore || (maxKeyword > 0.0 && a.keywordScore < b.keywordScore)
        || |query * a.chunk.terms| < |query * b.chunk.terms|
        || RankOrLast(b.semanticRank, candidateLimit) < RankOrLast(a.semanticRank, candidateLimit)
        || RankOrLast(b.keywordRank, candidateLimit) < RankOrLast(a.keywordRank, candidateLimit))
  }

  /** Every signal counts: being better in one, and no worse in the others, scores higher. */
  lemma EverySignalCounts(a: Candidate, b: Candidate, maxKeyword: real, query: set<string>, candidateLimit: nat)
    requires maxKeyword >= 0.0 && Better(a, b, maxKeyword, query, candidateLimit)
    ensures FusedScore(a, maxKeyword, query, candidateLimit) < FusedScore(b, maxKeyword, query, candidateLimit)
  {
    KeywordShareGrows(a, b, maxKeyword);
    if |query * a.chunk.terms| < |query * b.chunk.terms| {
      OverlapGrows(query, a.chunk.terms, b.chunk.terms);
    }
    if RankOrLast(b.semanticRank, candidateLimit) < RankOrLast(a.semanticRank, candidateLimit)
      || RankOrLast(b.keywordRank, candidateLimit) < RankOrLast(a.keywordRank, candidateLimit) {
      RankSignalGrows(a, b, candidateLimit);
    } else {
      SameRankSignal(a, b, candidateLimit);
    }
    FusedParts(a, maxKeyword, query, candidateLimit);
    FusedParts(b, maxKeyword, query, candidateLimit);
  }

  lemma SameRankSignal(a: Candidate, b: Candidate, candidateLimit: nat)
    requires RankOrLast(b.semanticRank, candidateLimit) == RankOrLast(a.semanticRank, candidateLimit)
    requires RankOrLast(b.keywordRank, candidateLimit) == RankOrLast(a.keywordRank, candidateLimit)
    ensures RankSignal(a, candidateLimit) == RankSignal(b, candidateLimit)
  {
  }

  lemma KeywordShareGrows(a: Candidate, b: Candidate, maxKeyword: real)
    requires maxKeyword >= 0.0 && a.keywordScore <= b.keywordScore
    ensures KeywordShare(a, maxKeyword) <= KeywordShare(b, maxKeyword)
    ensures maxKeyword > 0.0 && a.keywordScore < b.keywordScore ==> KeywordShare(a, maxKeyword) < KeywordShare(b, maxKeyword)
  {
    if maxKeyword > 0.0 {
      QuotientGrows(a.keywordScore, b.keywordScore, maxKeyword);
    }
  }

  lemma QuotientGrows(x: real, y: real, d: real)
    requires x <= y && d > 0.0
    ensures x / d <= y / d && (x < y ==> x / d < y / d)
  {
    assert y / d == x / d + (y - x) / d;
    DivideMonotone(0.0, y - x, d);
    if x < y { PositiveQuotient(y - x, d); }
  }

  lemma FusedParts(c: Candidate, maxKeyword: real, query: set<string>, candidateLimit: nat)
    ensures FusedScore(c, maxKeyword, query, candidateLimit)
         == 0.60 * c.semanticScore + 0.25 * KeywordShare(c, maxKeyword)
            + 0.10 * Overlap(query, c.chunk.terms) + 0.05 * RankSignal(c, candidateLimit)
  {
  }

  lemma FirstRank()
    ensures 61.0 * (1.0 / (60.0 + 1 as real)) == 1.0
  {
  }

  /** A chunk first in both searches, with similarity 1, the top keyword score and every query
      term, scores 0.995. */
  lemma PerfectScore(c: Candidate, maxKeyword: real, query: set<string>, candidateLimit: nat)
    requires c.semanticScore == 1.0 && maxKeyword > 0.0 && c.keywordScore == maxKeyword
    requires query != {} && query <= c.chunk.terms && c.semanticRank == Some(1) && c.keywordRank == Some(1)
    ensures FusedScore(c, maxKeyword, query, candidateLimit) == 0.995
  {
    OverlapMeans(query, c.chunk.terms);
    FusedParts(c, maxKeyword, query, candidateLimit);
    RankParts(c, candidateLimit);
    FirstRank();
    assert RankSignal(c, candidateLimit) == 0.9;
    UnitQuotient(c.keywordScore, maxKeyword);
  }

  /** The best keyword hit that has every query term. */
  predicate TopKeyword(c: Candidate, maxKeyword: real, query: set<string>) {
    && maxKeyword > 0.0 && c.keywordScore == maxKeyword && c.keywordRank == Some(1)
    && query != {} && query <= c.chunk.terms && c.semanticScore >= 0.0
  }

  /** A hit of the semantic search alone, without a query term. */
  predicate OnlySemantic(c: Candidate, query: set<string>) {
    && c.keywordScore == 0.0 && c.keywordRank == None && query !! c.chunk.terms
    && (c.semanticRank.Some? ==> c.semanticRank.value >= 1)
  }

  /** Keyword evidence outweighs similarity up to 0.52. */
  lemma KeywordHitWins(top: Candidate, other: Candidate, maxKeyword: real, query: set<string>, candidateLimit: nat)
    requires TopKeyword(top, maxKeyword, query) && OnlySemantic(other, query) && other.semanticScore <= 0.52
    ensures FusedScore(other, maxKeyword, query, candidateLimit) < FusedScore(top, maxKeyword, query, candidateLimit)
  {
    OverlapMeans(query, top.chunk.terms);
    OverlapMeans(query, other.chunk.terms);
    FusedParts(top, maxKeyword, query, candidateLimit);
    FusedParts(other, maxKeyword, query, candidateLimit);
    UnitQuotient(top.keywordScore, maxKeyword);
    TopRank(top, candidateLimit);
    RankSignalBounds(other, candidateLimit);
  }

  lemma TopRank(c: Candidate, candidateLimit: nat)
    requires c.keywordRank == Some(1)
    ensures RankSignal(c, candidateLimit) >= 0.25
  {
    RankParts(c, candidateLimit);
    FirstRank();
    var s := RankOrLast(c.semanticRank, candidateLimit);
    PositiveQuotient(1.0, 60.0 + s as real);
  }

  /** The order of the results: falling scores, ties by document and then by position. */
  predicate InOrder(hits: seq<Hit>) {
    forall i, j :: 0 <= i < j < |hits| ==>
      || hits[i].score > hits[j].score
      || (hits[i].score == hits[j].score &&
          (|| hits[i].chunk.docId < hits[j].chunk.docId
           || (hits[i].chunk.docId == hits[j].chunk.docId && hits[i].chunk.index <= hits[j].chunk.index)))
  }

  lemma BestIsInOrder(scored: seq<Hit>, limit: nat, hits: seq<Hit>)
    requires Best(Outranks, scored, limit, hits)
    ensures InOrder(hits) && forall h, x :: h in hits && x in multiset(scored) - multiset(hits) ==> h.score >= x.score
  {
  }

  lemma LeftOut(scored: seq<Hit>, limit: nat, hits: seq<Hit>, x: Hit, h: Hit)
    requires Best(Outranks, scored, limit, hits) && x in scored && x !in hits && h in hits
    ensures h.score >= x.score
  {
    assert x in multiset(scored) && multiset(hits)[x] == 0;
    assert x in multiset(scored) - multiset(hits);
  }

  /** A result never appears without, or before, a candidate that scores higher. */
  lemma HigherComesFirst(scored: seq<Hit>, limit: nat, hits: seq<Hit>, high: Hit, q: nat)
    requires Best(Outranks, scored, limit, hits) && high in scored && q < |hits| && hits[q].score < high.score
    ensures exists p :: 0 <= p < q && hits[p] == high
  {
    BestIsInOrder(scored, limit, hits);
    if high !in hits {
      LeftOut(scored, limit, hits, high, hits[q]);
    }
    var p :| 0 <= p < |hits| && hits[p] == high;
  }

  /** What a fused candidate says of the rows it came from. */
  lemma CandidateSays(semantic: seq<Row>, keyword: seq<Row>, cs: seq<Candidate>, i: nat)
    requires DistinctIds(semantic) && DistinctIds(keyword) && Merged(semantic, keyword, |keyword|, cs) && i < |cs|
    ensures forall k :: 0 <= k < |semantic| && semantic[k].chunk.id == cs[i].chunk.id ==>
              cs[i].semanticRank == Some(k + 1) && cs[i].semanticScore == OrZero(semantic[k].score)
    ensures forall k :: 0 <= k < |keyword| && keyword[k].chunk.id == cs[i].chunk.id ==>
              cs[i].keywordRank == Some(k + 1) && cs[i].keywordScore == OrZero(keyword[k].score)
    ensures (forall k :: 0 <= k < |semantic| ==> semantic[k].chunk.id != cs[i].chunk.id) ==>
              cs[i].semanticRank == None && cs[i].semanticScore == 0.0
    ensures (forall k :: 0 <= k < |keyword| ==> keyword[k].chunk.id != cs[i].chunk.id) ==>
              cs[i].keywordRank == None && cs[i].keywordScore == 0.0
  {
    assert keyword[..|keyword|] == keyword;
    var c := cs[i];
    assert c == Fused(semantic, keyword, c.chunk);
    SaysRow(semantic, c.chunk.id);
    SaysRow(keyword, c.chunk.id);
  }

  lemma SaysRow(rows: seq<Row>, id: Id)
    requires DistinctIds(rows)
    ensures forall k :: 0 <= k < |rows| && rows[k].chunk.id == id ==>
              RankOf(rows, id) == Some(k + 1) && ScoreOf(rows, id) == OrZero(rows[k].score)
    ensures (forall k :: 0 <= k < |rows| ==> rows[k].chunk.id != id) ==> RankOf(rows, id) == None && ScoreOf(rows, id) == 0.0
  {
    forall k | 0 <= k < |rows| && rows[k].chunk.id == id
      ensures RankOf(rows, id) == Some(k + 1) && ScoreOf(rows, id) == OrZero(rows[k].score)
    {
      IndexUnique(rows, k);
    }
  }

  /** The keyword search returns its best hit first. */
  ghost predicate KeywordOrder(keyword: seq<Row>) {
    forall k :: 0 <= k < |keyword| ==> OrZero(keyword[k].score) <= OrZero(keyword[0].score)
  }

  lemma FirstKeywordIsTop(semantic: seq<Row>, keyword: seq<Row>, cs: seq<Candidate>)
    requires DistinctIds(semantic) && DistinctIds(keyword) && Merged(semantic, keyword, |keyword|, cs)
    requires keyword != [] && KeywordOrder(keyword) && OrZero(keyword[0].score) > 0.0
    ensures MaxKeyword(cs) == OrZero(keyword[0].score)
  {
    var top := OrZero(keyword[0].score);
    forall i | 0 <= i < |cs| ensures cs[i].keywordScore <= top {
      CandidateSays(semantic, keyword, cs, i);
    }
    assert Has(cs, keyword[0].chunk);
    var i :| 0 <= i < |cs| && cs[i].chunk == keyword[0].chunk;
    CandidateSays(semantic, keyword, cs, i);
    AtMostMaxKeyword(cs, i);
    MaxKeywordReached(cs);
  }

  lemma {:induction false} AtMostMaxKeyword(cs: seq<Candidate>, i: nat)
    requires i < |cs|
    ensures cs[i].keywordScore <= MaxKeyword(cs)
  {
    if i < |cs| - 1 {
      AtMostMaxKeyword(Init(cs), i);
    }
  }

  /** In the answer of a hybrid search, the top keyword row with every query term comes before
      every row of the semantic search alone that has no query term and a similarity up to
      0.52, if that one is returned at all. */
  lemma TopKeywordRowWins(semantic: seq<Row>, keyword: seq<Row>, query: set<string>, limit: nat, candidateLimit: nat,
                          hits: seq<Hit>, j: nat, q: nat)
    requires DistinctIds(semantic) && DistinctIds(keyword) && Answers(semantic, keyword, query, limit, candidateLimit, hits)
    requires keyword != [] && KeywordOrder(keyword) && OrZero(keyword[0].score) > 0.0
    requires query != {} && query <= keyword[0].chunk.terms
    requires forall k :: 0 <= k < |semantic| && semantic[k].chunk.id == keyword[0].chunk.id ==> OrZero(semantic[k].score) >= 0.0
    requires j < |semantic| && query !! semantic[j].chunk.terms && OrZero(semantic[j].score) <= 0.52
    requires forall k :: 0 <= k < |keyword| ==> keyword[k].chunk.id != semantic[j].chunk.id
    requires q < |hits| && hits[q].chunk == semantic[j].chunk
    ensures exists p :: 0 <= p < q && hits[p].chunk == keyword[0].chunk
  {
    var cs: seq<Candidate> :| Merged(semantic, keyword, |keyword|, cs) && Best(Outranks, Scored(cs, query, candidateLimit), limit, hits);
    assert Has(cs, keyword[0].chunk);
    var i :| 0 <= i < |cs| && cs[i].chunk == keyword[0].chunk;
    var m := CandidateOf(cs, query, candidateLimit, limit, hits, q);
    CandidateSays(semantic, keyword, cs, i);
    CandidateSays(semantic, keyword, cs, m);
    FirstKeywordIsTop(semantic, keyword, cs);
    SearchRewardsKeywords(cs, query, candidateLimit, limit, hits, i, m, q);
  }

  lemma CandidateOf(cs: seq<Candidate>, query: set<string>, candidateLimit: nat, limit: nat, hits: seq<Hit>, q: nat) returns (m: nat)
    requires Best(Outranks, Scored(cs, query, candidateLimit), limit, hits) && q < |hits|
    ensures m < |cs| && hits[q] == Scored(cs, query, candidateLimit)[m] && cs[m].chunk == hits[q].chunk
  {
    var scored := Scored(cs, query, candidateLimit);
    assert hits[q] in multiset(hits);
    assert hits[q] in scored;
    m :| 0 <= m < |scored| && scored[m] == hits[q];
  }

  /** So in the hybrid search the top keyword hit with every query term comes before every
      semantic-only hit of similarity up to 0.52, if that one is returned at all. */
  lemma SearchRewardsKeywords(cs: seq<Candidate>, query: set<string>, candidateLimit: nat, limit: nat, hits: seq<Hit>,
                              i: nat, j: nat, q: nat)
    requires Best(Outranks, Scored(cs, query, candidateLimit), limit, hits) && i < |cs| && j < |cs| && q < |hits|
    requires TopKeyword(cs[i], MaxKeyword(cs), query) && OnlySemantic(cs[j], query) && cs[j].semanticScore <= 0.52
    requires hits[q] == Scored(cs, query, candidateLimit)[j]
    ensures exists p :: 0 <= p < q && hits[p] == Scored(cs, query, candidateLimit)[i]
  {
    KeywordHitWins(cs[i], cs[j], MaxKeyword(cs), query, candidateLimit);
    var scored := Scored(cs, query, candidateLimit);
    assert scored[i] in scored;
    HigherComesFirst(scored, limit, hits, scored[i], q);
  }

  /** The maximum that keyword scores are divided by is reached. */
  lemma {:induction false} MaxKeywordReached(cs: seq<Candidate>)
    requires cs != []
    ensures exists i :: 0 <= i < |cs| && cs[i].keywordScore == MaxKeyword(cs)
  {
    if |cs| == 1 {
      assert cs[0].keywordScore == MaxKeyword(cs);
    } else if MaxKeyword(cs) == Last(cs).keywordScore {
      assert cs[|cs| - 1].keywordScore == MaxKeyword(cs);
    } else {
      MaxKeywordReached(Init(cs));
      var i :| 0 <= i < |cs| - 1 && Init(cs)[i].keywordScore == MaxKeyword(Init(cs));
      assert cs[i].keywordScore == MaxKeyword(cs);
    }
  }

  /* ---- the fallback reranker ---- */

  /** A higher incoming score, between 0 and 1, and a further query term each raise the score;
      1 is reached with both full, and 0 with neither. */
  lemma FallbackMeans(query: set<string>, a: Hit, b: Hit)
    requires query != {}
    ensures |query * a.chunk.terms| == |query * b.chunk.terms| && 0.0 <= a.score < b.score <= 1.0 ==>
              FallbackScore(query, a) < FallbackScore(query, b)
    ensures a.score == b.score && |query * a.chunk.terms| < |query * b.chunk.terms| ==>
              FallbackScore(query, a) < FallbackScore(query, b)
    ensures a.score >= 1.0 && query <= a.chunk.terms ==> FallbackScore(query, a) == 1.0
    ensures a.score <= 0.0 && query !! a.chunk.terms ==> FallbackScore(query, a) == 0.0
  {
    OverlapMeans(query, a.chunk.terms);
    if |query * a.chunk.terms| < |query * b.chunk.terms| {
      OverlapGrows(query, a.chunk.terms, b.chunk.terms);
    }
  }

  /** Reranked rows come in order of falling scores. */
  lemma RerankedFalls(query: set<string>, hits: seq<Hit>)
    ensures forall i, j :: 0 <= i < j < |Rerank(query, hits)| ==> Rerank(query, hits)[i].score >= Rerank(query, hits)[j].score
  {
    RerankCorrect(query, hits);
  }

  /* ---- the gate ---- */

  /** A chunk passes the gate exactly when it is among the top k, its tenant's own, scores at
      least the threshold, and scores at least `relative` times every chunk that does. */
  lemma GateMeans(hits: seq<Hit>, topK: nat, tenant: string, minScore: real, relative: real, h: Hit)
    requires 0.0 <= relative
    ensures h in Evidence(hits, topK, tenant, minScore, relative) <==>
              && h in FirstN(hits, topK) && h.chunk.tenant == tenant && h.score >= minScore
              && forall x :: x in FirstN(hits, topK) && x.chunk.tenant == tenant && x.score >= minScore ==>
                   h.score >= x.score * relative
  {
    var admitted := Top(hits, topK, tenant, minScore);
    FilterMember(Admitted(tenant, minScore), FirstN(hits, topK));
    if admitted != [] {
      FilterMember(AboveFloor(FloorOf(admitted, relative)), admitted);
      FloorMeans(admitted, relative, h.score);
    }
  }

  lemma FloorMeans(admitted: seq<Hit>, relative: real, score: real)
    requires 0.0 <= relative && admitted != []
    ensures score >= FloorOf(admitted, relative) <==> forall x :: x in admitted ==> score >= x.score * relative
  {
    var floor := FloorOf(admitted, relative);
    MaxScoreIsMax(admitted);
    forall x | x in admitted ensures x.score * relative <= floor {
      ScaleBy(x.score, MaxScore(admitted), relative);
    }
    var best :| best in admitted && best.score == MaxScore(admitted);
    assert floor == best.score * relative;
  }

  /** What each signal is worth: 0.60 for the similarity, 0.25 for the keyword score relative
      to the best one, 0.10 for the share of query terms, and of the remaining 0.05 the part
      0.65 for coming first in the semantic search and 0.25 in the keyword search. */
  lemma SignalWeights(c: Candidate, d: Candidate, maxKeyword: real, query: set<string>, candidateLimit: nat)
    requires maxKeyword > 0.0 && query != {}
    ensures d == c.(semanticScore := d.semanticScore) ==>
              FusedScore(d, maxKeyword, query, candidateLimit) - FusedScore(c, maxKeyword, query, candidateLimit)
              == 0.60 * (d.semanticScore - c.semanticScore)
    ensures c.keywordScore == 0.0 && d == c.(keywordScore := maxKeyword) ==>
              FusedScore(d, maxKeyword, query, candidateLimit) - FusedScore(c, maxKeyword, query, candidateLimit) == 0.25
    ensures d == c.(chunk := d.chunk) && query !! c.chunk.terms && query <= d.chunk.terms ==>
              FusedScore(d, maxKeyword, query, candidateLimit) - FusedScore(c, maxKeyword, query, candidateLimit) == 0.10
  {
    FusedParts(c, maxKeyword, query, candidateLimit);
    FusedParts(d, maxKeyword, query, candidateLimit);
    OverlapMeans(query, c.chunk.terms);
    OverlapMeans(query, d.chunk.terms);
    UnitQuotient(maxKeyword, maxKeyword);
  }

  lemma RankWeights(c: Candidate, candidateLimit: nat)
    ensures c.semanticRank == Some(1) ==>
              RankSignal(c, candidateLimit) - 0.65 == 61.0 * (0.25 * (1.0 / (60.0 + RankOrLast(c.keywordRank, candidateLimit) as real)))
    ensures c.keywordRank == Some(1) ==>
              RankSignal(c, candidateLimit) - 0.25 == 61.0 * (0.65 * (1.0 / (60.0 + RankOrLast(c.semanticRank, candidateLimit) as real)))
  {
    RankParts(c, candidateLimit);
    FirstRank();
  }

  /** The lexical results come in order of falling scores, ties by position. */
  lemma LexicalInOrder(scored: seq<Hit>, topK: nat, hits: seq<Hit>)
    requires Best(LexicalOrder, scored, topK, hits)
    ensures forall i, j :: 0 <= i < j < |hits| ==>
              || hits[i].score > hits[j].score
              || (hits[i].score == hits[j].score && hits[i].chunk.index <= hits[j].chunk.index)
  {
  }
}
