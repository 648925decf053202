/** evals/evaluate.py: threshold calibration and ranking quality. */
module Evaluation {
  import opened Sequences
  import opened Arithmetic

  /* ---- best_threshold ---- */

  function AtLeast(t: real): real -> bool { (x: real) => x >= t }

  function Below(t: real): real -> bool { (x: real) => x < t }

  function Share(p: real -> bool, scores: seq<real>): real {
    |Filter(p, scores)| as real / (if |scores| == 0 then 1 else |scores|) as real
  }

  /** Mean of the share of answerable scores answered and of unanswerable ones abstained from. */
  function Balanced(answerable: seq<real>, unanswerable: seq<real>, t: real): real {
    (Share(AtLeast(t), answerable) + Share(Below(t), unanswerable)) / 2.0
  }

  function InsertUnique(x: real, s: seq<real>): seq<real> {
    if s == [] || Last(s) < x then s + [x]
    else if Last(s) == x then s
    else InsertUnique(x, Init(s)) + [Last(s)]
  }

  /** sorted(set(xs)) */
  function SortedSet(xs: seq<real>): seq<real> {
    if xs == [] then [] else InsertUnique(Last(xs), SortedSet(Init(xs)))
  }

  function Candidates(answerable: seq<real>, unanswerable: seq<real>): seq<real> {
    SortedSet([0.0] + answerable + unanswerable)
  }

  ghost predicate Ascending(s: seq<real>) {
    forall i, j :: 0 <= i < j < |s| ==> s[i] < s[j]
  }

  lemma {:induction false} InsertUniqueCorrect(x: real, s: seq<real>)
    requires Ascending(s)
    ensures Ascending(InsertUnique(x, s))
    ensures forall y :: y in InsertUnique(x, s) <==> y in s || y == x
  {
    if s != [] {
      assert s == Init(s) + [Last(s)];
      if Last(s) > x {
        var r := InsertUnique(x, Init(s));
        InsertUniqueCorrect(x, Init(s));
        forall i | 0 <= i < |r| ensures r[i] < Last(s) {
          assert r[i] in r;
        }
      } else if Last(s) < x {
        assert forall i :: 0 <= i < |s| ==> s[i] <= Last(s);
      }
    }
  }

  lemma {:induction false} SortedSetCorrect(xs: seq<real>)
    ensures Ascending(SortedSet(xs))
    ensures forall y :: y in SortedSet(xs) <==> y in xs
  {
    if xs != [] {
      SortedSetCorrect(Init(xs));
      InsertUniqueCorrect(Last(xs), SortedSet(Init(xs)));
      assert xs == Init(xs) + [Last(xs)];
    }
  }

  lemma CandidatesCorrect(answerable: seq<real>, unanswerable: seq<real>)
    ensures Ascending(Candidates(answerable, unanswerable))
    ensures forall y :: y in Candidates(answerable, unanswerable) <==> y == 0.0 || y in answerable || y in unanswerable
  {
    SortedSetCorrect([0.0] + answerable + unanswerable);
  }

  /** Two thresholds with no score between them, nor at the lower one, treat all scores alike. */
  lemma SameShares(answerable: seq<real>, unanswerable: seq<real>, t: real, c: real)
    requires t <= c
    requires forall x :: x in answerable || x in unanswerable ==> !(t <= x < c)
    ensures Balanced(answerable, unanswerable, t) == Balanced(answerable, unanswerable, c)
  {
    FilterSame(AtLeast(t), AtLeast(c), answerable);
    FilterSame(Below(t), Below(c), unanswerable);
  }

  lemma Fraction(k: nat, n: nat)
    requires k <= n && n >= 1
    ensures 0.0 <= k as real / n as real <= 1.0
    ensures k == n ==> k as real / n as real == 1.0
    ensures k < n ==> k as real / n as real < 1.0
    ensures k == 0 ==> k as real / n as real == 0.0
  {
    UnitQuotient(k as real, n as real);
  }

  lemma ShareBounds(p: real -> bool, s: seq<real>)
    ensures 0.0 <= Share(p, s) <= 1.0
    ensures s != [] && (forall x :: x in s ==> p(x)) ==> Share(p, s) == 1.0
    ensures (forall x :: x in s ==> !p(x)) ==> Share(p, s) == 0.0
    ensures (exists x :: x in s && !p(x)) ==> Share(p, s) < 1.0
  {
    Fraction(|Filter(p, s)|, if s == [] then 1 else |s|);
    if forall x :: x in s ==> p(x) {
      FilterAll(p, s);
    } else {
      FilterShorter(p, s);
    }
    if forall x :: x in s ==> !p(x) {
      FilterNone(p, s);
    }
  }

  lemma {:induction false} FilterShorter(p: real -> bool, s: seq<real>)
    requires exists x :: x in s && !p(x)
    ensures |Filter(p, s)| < |s|
  {
    assert s == Init(s) + [Last(s)];
    if p(Last(s)) {
      var x :| x in s && !p(x);
      assert x in Init(s);
      FilterShorter(p, Init(s));
    }
  }

  /** The first position of an ascending list whose element reaches `t`. */
  lemma {:induction false} FirstAtLeast(s: seq<real>, t: real) returns (i: nat)
    requires Ascending(s)
    ensures i <= |s| && (forall j :: 0 <= j < i ==> s[j] < t) && (i < |s| ==> s[i] >= t)
  {
    i := 0;
    while i < |s| && s[i] < t
      invariant i <= |s| && forall j :: 0 <= j < i ==> s[j] < t
    {
      i := i + 1;
    }
  }

  /** Some candidate is as good as any real threshold. */
  lemma CandidateAsGood(answerable: seq<real>, unanswerable: seq<real>, t: real) returns (c: real)
    requires answerable != [] || forall u :: u in unanswerable ==> u < 0.0
    ensures c in Candidates(answerable, unanswerable)
    ensures Balanced(answerable, unanswerable, t) <= Balanced(answerable, unanswerable, c)
  {
    var cs := Candidates(answerable, unanswerable);
    CandidatesCorrect(answerable, unanswerable);
    var i := FirstAtLeast(cs, t);
    if i < |cs| {
      c := cs[i];
      forall x | x in answerable || x in unanswerable ensures !(t <= x < c) {
        assert x in cs;
        var j :| 0 <= j < |cs| && cs[j] == x;
      }
      SameShares(answerable, unanswerable, t, c);
    } else {
      // t is above every score: abstaining always
      forall x | x in answerable || x in unanswerable ensures x < t {
        assert x in cs;
        var j :| 0 <= j < |cs| && cs[j] == x;
      }
      ShareBounds(AtLeast(t), answerable);
      ShareBounds(Below(t), unanswerable);
      if answerable != [] {
        assert 0.0 in cs;
        c := cs[0];
        forall x | x in answerable ensures x >= c {
          assert x in cs;
          var j :| 0 <= j < |cs| && cs[j] == x;
        }
        ShareBounds(AtLeast(c), answerable);
        ShareBounds(Below(c), unanswerable);
      } else {
        c := 0.0;
        assert t > 0.0 by { var j :| 0 <= j < |cs| && cs[j] == 0.0; }
        FilterAll(Below(t), unanswerable);
        FilterAll(Below(0.0), unanswerable);
      }
    }
  }

  lemma BalancedNonNegative(answerable: seq<real>, unanswerable: seq<real>, t: real)
    ensures Balanced(answerable, unanswerable, t) >= 0.0
  {
    ShareBounds(AtLeast(t), answerable);
    ShareBounds(Below(t), unanswerable);
  }

  /** `best` is the smallest of `cs` that reaches the best balanced accuracy among them. */
  ghost predicate SmallestBest(answerable: seq<real>, unanswerable: seq<real>, cs: seq<real>, best: real) {
    && best in cs
    && forall c :: c in cs ==>
         && Balanced(answerable, unanswerable, c) <= Balanced(answerable, unanswerable, best)
         && (c < best ==> Balanced(answerable, unanswerable, c) < Balanced(answerable, unanswerable, best))
  }

  lemma SmallestBestNext(answerable: seq<real>, unanswerable: seq<real>, cs: seq<real>, best: real, c: real)
    requires SmallestBest(answerable, unanswerable, cs, best) && forall x :: x in cs ==> x < c
    ensures SmallestBest(answerable, unanswerable, cs + [c],
                         if Balanced(answerable, unanswerable, c) > Balanced(answerable, unanswerable, best) then c else best)
  {
  }

  /** The running-best loop over candidates in ascending order. */
  method RunningBest(answerable: seq<real>, unanswerable: seq<real>, cs: seq<real>) returns (best: real)
    requires Ascending(cs) && cs != []
    ensures SmallestBest(answerable, unanswerable, cs, best)
  {
    best := 0.0;
    var bestScore := -1.0;
    var i := 0;
    while i < |cs|
      invariant 0 <= i <= |cs|
      invariant if i == 0 then bestScore == -1.0
                else SmallestBest(answerable, unanswerable, cs[..i], best) && bestScore == Balanced(answerable, unanswerable, best)
    {
      var balanced := Balanced(answerable, unanswerable, cs[i]);
      if i == 0 {
        BalancedNonNegative(answerable, unanswerable, cs[i]);
      } else {
        SmallestBestNext(answerable, unanswerable, cs[..i], best, cs[i]);
      }
      assert cs[..i + 1] == cs[..i] + [cs[i]];
      if balanced > bestScore {
        best, bestScore := cs[i], balanced;
      }
      i := i + 1;
    }
    assert cs[..i] == cs;
  }

  /** The result is the smallest candidate that reaches the best balanced accuracy of any
      candidate, and, when some score is answerable, of any real threshold at all. */
  method BestThreshold(answerable: seq<real>, unanswerable: seq<real>) returns (best: real)
    ensures SmallestBest(answerable, unanswerable, Candidates(answerable, unanswerable), best)
    ensures answerable != [] ==> forall t ::
              Balanced(answerable, unanswerable, t) <= Balanced(answerable, unanswerable, best)
  {
    var cs := Candidates(answerable, unanswerable);
    CandidatesCorrect(answerable, unanswerable);
    assert 0.0 in cs;
    best := RunningBest(answerable, unanswerable, cs);
    OptimalIff(answerable, unanswerable, best);
  }

  /** Exactly when the best candidate is globally optimal: some score is answerable, or every
      unanswerable score is negative. Otherwise a threshold above them all does better. */
  lemma OptimalIff(answerable: seq<real>, unanswerable: seq<real>, best: real)
    requires best in Candidates(answerable, unanswerable)
    requires forall c :: c in Candidates(answerable, unanswerable) ==>
               Balanced(answerable, unanswerable, c) <= Balanced(answerable, unanswerable, best)
    ensures (forall t :: Balanced(answerable, unanswerable, t) <= Balanced(answerable, unanswerable, best))
       <==> answerable != [] || forall u :: u in unanswerable ==> u < 0.0
  {
    if answerable != [] || forall u :: u in unanswerable ==> u < 0.0 {
      forall t ensures Balanced(answerable, unanswerable, t) <= Balanced(answerable, unanswerable, best) {
        var c := CandidateAsGood(answerable, unanswerable, t);
      }
    } else {
      AbstainingIsBetter(unanswerable, best);
      assert answerable == [];
    }
  }

  /** With nothing answerable, no candidate abstains from the top non-negative score. */
  lemma AbstainingIsBetter(unanswerable: seq<real>, best: real)
    requires best in Candidates([], unanswerable)
    requires exists u :: u in unanswerable && u >= 0.0
    ensures exists t :: Balanced([], unanswerable, t) > Balanced([], unanswerable, best)
  {
    var cs := Candidates([], unanswerable);
    CandidatesCorrect([], unanswerable);
    var top := cs[|cs| - 1];
    assert forall x :: x in cs ==> x <= top;
    var u :| u in unanswerable && u >= 0.0;
    assert u in cs && top in cs;
    var t := top + 1.0;
    assert !Below(best)(top) && top in unanswerable;
    ShareBounds(Below(best), unanswerable);
    ShareBounds(Below(t), unanswerable);
    assert forall x :: x in unanswerable ==> x in cs;
    assert Share(AtLeast(t), []) == 0.0 == Share(AtLeast(best), []);
    assert Balanced([], unanswerable, t) > Balanced([], unanswerable, best);
  }

  /* ---- ndcg ---- */

  /** Rank discounts, such as 1 / log2(rank + 2). */
  ghost predicate Discounts(w: nat -> real) {
    (forall i :: w(i) > 0.0) && forall i, j :: i < j ==> w(i) > w(j)
  }

  function Ideal(w: nat -> real, n: nat): real {
    if n == 0 then 0.0 else Ideal(w, n - 1) + w(n - 1)
  }

  function Gain(w: nat -> real, relevance: seq<bool>): real {
    if relevance == [] then 0.0
    else Gain(w, Init(relevance)) + if Last(relevance) then w(|relevance| - 1) else 0.0
  }

  function Ndcg(w: nat -> real, relevance: seq<bool>, cutoff: nat, relevantCount: nat): real {
    var ideal := Ideal(w, Min(relevantCount, cutoff));
    if ideal != 0.0 then Gain(w, FirstN(relevance, cutoff)) / ideal else 0.0
  }

  function Hits(relevance: seq<bool>): nat {
    if relevance == [] then 0 else Hits(Init(relevance)) + if Last(relevance) then 1 else 0
  }

  ghost predicate LeadingHits(relevance: seq<bool>, n: nat) {
    n <= |relevance| && forall i :: 0 <= i < n ==> relevance[i]
  }

  lemma {:induction false} HitsBound(relevance: seq<bool>)
    ensures Hits(relevance) <= |relevance|
  {
    if relevance != [] {
      HitsBound(Init(relevance));
    }
  }

  lemma {:induction false} HitsLead(relevance: seq<bool>, n: nat)
    requires LeadingHits(relevance, n)
    ensures n <= Hits(relevance)
  {
    HitsBound(relevance);
    if relevance != [] {
      HitsLead(Init(relevance), if n > 0 && n == |relevance| then n - 1 else n);
    }
  }

  lemma {:induction false} AllHits(relevance: seq<bool>)
    requires Hits(relevance) == |relevance|
    ensures LeadingHits(relevance, |relevance|)
  {
    if relevance != [] {
      HitsBound(Init(relevance));
      AllHits(Init(relevance));
    }
  }

  lemma LeadingPrefix(relevance: seq<bool>, last: bool, n: nat)
    requires n <= |relevance|
    ensures LeadingHits(relevance + [last], n) <==> LeadingHits(relevance, n)
  {
    assert forall i :: 0 <= i < n ==> (relevance + [last])[i] == relevance[i];
  }

  lemma LeadingAll(relevance: seq<bool>, n: nat)
    requires n == |relevance| && LeadingHits(relevance, n)
    ensures LeadingHits(relevance + [true], n + 1)
  {
  }

  /** A further hit leads exactly when all before it were hits. */
  lemma LeadingHit(relevance: seq<bool>, h: nat)
    requires h == Hits(relevance)
    ensures h <= |relevance| && (LeadingHits(relevance + [true], h + 1) <==> h == |relevance|)
  {
    HitsBound(relevance);
    if h == |relevance| {
      AllHits(relevance);
      LeadingAll(relevance, h);
    } else {
      LeadingPrefix(relevance, true, h + 1);
      if LeadingHits(relevance, h + 1) {
        HitsLead(relevance, h + 1);
      }
    }
  }

  /** The exchange argument: moving hits to the front can only gain, and gains nothing
      exactly when they are already there. */
  lemma {:induction false} FrontIsBest(w: nat -> real, relevance: seq<bool>)
    requires Discounts(w)
    ensures 0.0 <= Gain(w, relevance) <= Ideal(w, Hits(relevance))
    ensures Gain(w, relevance) == Ideal(w, Hits(relevance)) <==> LeadingHits(relevance, Hits(relevance))
  {
    if relevance != [] {
      var before, h, n := Init(relevance), Hits(Init(relevance)), |relevance| - 1;
      FrontIsBest(w, before);
      HitsBound(before);
      assert relevance == before + [Last(relevance)];
      if Last(relevance) {
        LeadingHit(before, h);
        assert h < n ==> w(h) > w(n);
        if h == n { AllHits(before); }
      } else {
        LeadingPrefix(before, false, h);
      }
    }
  }

  lemma {:induction false} IdealGrows(w: nat -> real, m: nat, n: nat)
    requires Discounts(w) && m <= n
    ensures Ideal(w, m) <= Ideal(w, n)
    ensures m < n ==> Ideal(w, m) < Ideal(w, n)
  {
    if m < n {
      IdealGrows(w, m, n - 1);
    }
  }

  /** nDCG lies in [0, 1], and is 1 exactly when the leading positions up to the cutoff are
      filled with relevant results, provided no more results are relevant than there are. */
  lemma NdcgNormalised(w: nat -> real, relevance: seq<bool>, cutoff: nat, relevantCount: nat)
    requires Discounts(w) && Hits(FirstN(relevance, cutoff)) <= relevantCount
    ensures 0.0 <= Ndcg(w, relevance, cutoff, relevantCount) <= 1.0
    ensures Ndcg(w, relevance, cutoff, relevantCount) == 1.0
       <==> Min(relevantCount, cutoff) > 0 && LeadingHits(relevance, Min(relevantCount, cutoff))
  {
    var top, m := FirstN(relevance, cutoff), Min(relevantCount, cutoff);
    var h := Hits(top);
    HitsBound(top);
    if LeadingHits(top, m) { HitsLead(top, m); }
    FrontIsBest(w, top);
    IdealGrows(w, h, m);
    IdealGrows(w, 0, m);
    assert LeadingHits(relevance, m) <==> LeadingHits(top, m);
    if m > 0 {
      UnitQuotient(Gain(w, top), Ideal(w, m));
    }
  }

  /* ---- de-duplicated sources ---- */

  /** The source list of _score: each source once, in ranking order. */
  method UniqueSources(ranked: seq<string>) returns (sources: seq<string>)
    ensures sources == FirstOccurrences(ranked)
    ensures Distinct(sources) && forall x :: x in sources <==> x in ranked
  {
    sources := [];
    var i := 0;
    while i < |ranked|
      invariant 0 <= i <= |ranked| && sources == FirstOccurrences(ranked[..i])
    {
      assert Init(ranked[..i + 1]) == ranked[..i];
      if ranked[i] !in sources {
        sources := sources + [ranked[i]];
      }
      i := i + 1;
    }
    assert ranked[..i] == ranked;
    FirstOccurrencesMember(ranked);
  }

  function Relevance(sources: seq<string>, expected: set<string>): seq<bool> {
    Map((s: string) => s in expected, sources)
  }

  /** A list without repetitions has at most as many hits as there are relevant sources. */
  lemma {:induction false} HitsAtMostExpected(sources: seq<string>, expected: set<string>)
    requires Distinct(sources)
    ensures Hits(Relevance(sources, expected)) <= |expected|
  {
    if sources != [] {
      var s := Last(sources);
      assert Init(Relevance(sources, expected)) == Relevance(Init(sources), expected);
      if s in expected {
        HitsAtMostExpected(Init(sources), expected - {s});
        assert Relevance(Init(sources), expected) == Relevance(Init(sources), expected - {s});
      } else {
        HitsAtMostExpected(Init(sources), expected);
      }
    }
  }

  lemma {:induction false} HitsPrefix(relevance: seq<bool>, n: nat)
    ensures Hits(FirstN(relevance, n)) <= Hits(relevance)
  {
    if n < |relevance| {
      HitsPrefix(Init(relevance), n);
      assert FirstN(Init(relevance), n) == FirstN(relevance, n);
    } else {
      assert FirstN(relevance, n) == relevance;
    }
  }

  /** What _score reports for any ranking, duplicates and all: a value in [0, 1] that is 1
      exactly when relevant sources fill the leading distinct positions. */
  lemma ScoreNormalised(w: nat -> real, ranked: seq<string>, expected: set<string>, cutoff: nat)
    requires Discounts(w) && expected != {} && cutoff > 0
    ensures var sources := FirstOccurrences(ranked);
            var score := Ndcg(w, Relevance(sources, expected), cutoff, |expected|);
            && 0.0 <= score <= 1.0
            && (score == 1.0 <==> LeadingHits(Relevance(sources, expected), Min(|expected|, cutoff)))
            && (score == 1.0 <==> Min(|expected|, cutoff) <= |sources|
                                  && forall i :: 0 <= i < Min(|expected|, cutoff) ==> sources[i] in expected)
  {
    var sources := FirstOccurrences(ranked);
    var relevance := Relevance(sources, expected);
    FirstOccurrencesMember(ranked);
    HitsAtMostExpected(sources, expected);
    HitsPrefix(relevance, cutoff);
    assert |expected| > 0 by { var x :| x in expected; assert expected == expected - {x} + {x}; }
    NdcgNormalised(w, relevance, cutoff, |expected|);
  }

  /* ---- earlier hits are worth more ---- */

  lemma GainSnoc(w: nat -> real, relevance: seq<bool>, hit: bool)
    ensures Gain(w, relevance + [hit]) == Gain(w, relevance) + if hit then w(|relevance|) else 0.0
  {
    assert Init(relevance + [hit]) == relevance;
  }

  /** Changing one position changes the gain by that position's discount. */
  lemma {:induction false} GainAt(w: nat -> real, relevance: seq<bool>, i: nat)
    requires i < |relevance| && !relevance[i]
    ensures Gain(w, relevance[i := true]) == Gain(w, relevance) + w(i)
  {
    var before, last := Init(relevance), Last(relevance);
    assert relevance == before + [last];
    GainSnoc(w, before, last);
    if i < |relevance| - 1 {
      GainAt(w, before, i);
      assert relevance[i := true] == before[i := true] + [last];
      GainSnoc(w, before[i := true], last);
    } else {
      assert relevance[i := true] == before + [true];
      GainSnoc(w, before, true);
    }
  }

  lemma {:induction false} IdealPositive(w: nat -> real, n: nat)
    requires Discounts(w) && n > 0
    ensures Ideal(w, n) > 0.0
  {
    if n > 1 {
      IdealPositive(w, n - 1);
    }
  }

  lemma QuotientGrows(x: real, y: real, d: real)
    requires x < y && d > 0.0
    ensures x / d < y / d
  {
    PositiveQuotient(y - x, d);
    assert y / d == x / d + (y - x) / d;
  }

  /** A ranking that is otherwise alike but has a hit earlier, inside the cutoff, scores higher. */
  lemma EarlierHitScoresHigher(w: nat -> real, relevance: seq<bool>, cutoff: nat, relevantCount: nat, i: nat, j: nat)
    requires Discounts(w) && relevantCount > 0 && i < j < |relevance| && i < cutoff && !relevance[i] && !relevance[j]
    ensures Ndcg(w, relevance[j := true], cutoff, relevantCount) < Ndcg(w, relevance[i := true], cutoff, relevantCount)
  {
    var top, m := FirstN(relevance, cutoff), Min(relevantCount, cutoff);
    IdealPositive(w, m);
    assert FirstN(relevance[i := true], cutoff) == top[i := true];
    GainAt(w, top, i);
    if j < cutoff {
      assert FirstN(relevance[j := true], cutoff) == top[j := true];
      GainAt(w, top, j);
      assert w(i) > w(j);
    } else {
      assert FirstN(relevance[j := true], cutoff) == top;
      assert w(i) > 0.0;
    }
    QuotientGrows(Gain(w, FirstN(relevance[j := true], cutoff)), Gain(w, top[i := true]), Ideal(w, m));
  }
}
