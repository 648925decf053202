/** query.py, _cosine: lexical similarity of two term counts. A square root is an input
    that squares to the sum, since only that matters here. */
module Cosine {
  import opened Arithmetic

  /** How often a term occurs; nothing below needs the counts to be whole. */
  type Count = x: real | x >= 0.0

  type Counts = map<string, Count>

  ghost function Pick(s: set<string>): (w: string)
    requires s != {}
    ensures w in s
  {
    var w :| w in s; w
  }

  ghost function Sum(s: set<string>, f: string -> real): real {
    if s == {} then 0.0 else f(Pick(s)) + Sum(s - {Pick(s)}, f)
  }

  function CountOf(m: Counts, w: string): Count { if w in m then m[w] else 0.0 }

  function Product(l: Counts, r: Counts): string -> real { (w: string) => CountOf(l, w) * CountOf(r, w) }

  ghost predicate IsRoot(root: real, x: real) { root >= 0.0 && root * root == x }

  ghost function SquareSum(m: Counts): real { Sum(m.Keys, Product(m, m)) }

  ghost function Numerator(l: Counts, r: Counts): real { Sum(l.Keys * r.Keys, Product(l, r)) }

  ghost function Cosine(l: Counts, r: Counts, leftNorm: real, rightNorm: real): real {
    if leftNorm != 0.0 && rightNorm != 0.0 then Numerator(l, r) / (leftNorm * rightNorm) else 0.0
  }

  /* ---- sums over sets ---- */

  lemma {:induction false} SumRemove(s: set<string>, f: string -> real, x: string)
    requires x in s
    ensures Sum(s, f) == f(x) + Sum(s - {x}, f)
    decreases s
  {
    var w := Pick(s);
    if w != x {
      SumRemove(s - {w}, f, x);
      SumRemove(s - {x}, f, w);
      assert s - {w} - {x} == s - {x} - {w};
    }
  }

  lemma {:induction false} SumNonNegative(s: set<string>, f: string -> real)
    requires forall w :: f(w) >= 0.0
    ensures Sum(s, f) >= 0.0
    decreases s
  {
    if s != {} {
      SumNonNegative(s - {Pick(s)}, f);
    }
  }

  lemma {:induction false} SumSubset(s: set<string>, t: set<string>, f: string -> real)
    requires s <= t && forall w :: f(w) >= 0.0
    ensures Sum(s, f) <= Sum(t, f)
    decreases t
  {
    if s == {} {
      SumNonNegative(t, f);
    } else {
      var w := Pick(s);
      SumRemove(t, f, w);
      SumSubset(s - {w}, t - {w}, f);
    }
  }

  /* ---- Cauchy-Schwarz ---- */

  /** n, p and q are the dot product and the two sums of squares of some vectors. */
  ghost predicate Bounded(n: real, p: real, q: real) {
    n >= 0.0 && p >= 0.0 && q >= 0.0 && n * n <= p * q
  }

  /** The induction step: adding a term to both vectors keeps n^2 <= p * q. */
  lemma AddTerm(n: real, p: real, q: real, a: real, b: real)
    requires Bounded(n, p, q) && a >= 0.0 && b >= 0.0
    ensures Bounded(n + a * b, p + a * a, q + b * b)
  {
    CrossTerm(n, p, q, a, b);
    ProductNonNegative(a, b);
    ProductNonNegative(a, a);
    ProductNonNegative(b, b);
    assert (n + a * b) * (n + a * b) == n * n + 2.0 * (n * (a * b)) + (a * b) * (a * b);
    assert (p + a * a) * (q + b * b) == p * q + p * (b * b) + q * (a * a) + (a * a) * (b * b);
    assert (a * b) * (a * b) == (a * a) * (b * b);
  }

  lemma CrossTerm(n: real, p: real, q: real, a: real, b: real)
    requires Bounded(n, p, q)
    ensures 2.0 * (n * (a * b)) <= p * (b * b) + q * (a * a)
  {
    var x := p * (b * b) + q * (a * a) - 2.0 * (n * (a * b));
    SquareNonNegative(a);
    if p == 0.0 {
      assert p * q == 0.0;
      if n > 0.0 { PositiveProduct(n, n); }
      ProductNonNegative(q, a * a);
    } else {
      // p * x >= (p*b - n*a)^2 >= 0
      var d := p * b - n * a;
      SquareNonNegative(d);
      assert d * d == p * p * (b * b) - 2.0 * (p * (n * (a * b))) + (n * n) * (a * a);
      ScaleBy(n * n, p * q, a * a);
      assert p * x == p * p * (b * b) + (p * q) * (a * a) - 2.0 * (p * (n * (a * b)));
      CancelFactor(p, x);
    }
  }

  lemma CancelFactor(p: real, x: real)
    requires p > 0.0 && p * x >= 0.0
    ensures x >= 0.0
  {
    if x < 0.0 {
      PositiveProduct(p, -x);
    }
  }

  /** The products of two counts, named so that only the wanted ones are multiplied out. */
  ghost predicate Products(a: real, b: real, ab: real, aa: real, bb: real) {
    a >= 0.0 && b >= 0.0 && ab == a * b && aa == a * a && bb == b * b
  }

  ghost predicate Pointwise(f: string -> real, g: string -> real, fg: string -> real, ff: string -> real, gg: string -> real) {
    forall w {:trigger Products(f(w), g(w), fg(w), ff(w), gg(w))} :: Products(f(w), g(w), fg(w), ff(w), gg(w))
  }

  lemma {:induction false} CauchySchwarz(s: set<string>, f: string -> real, g: string -> real,
                                         fg: string -> real, ff: string -> real, gg: string -> real)
    requires Pointwise(f, g, fg, ff, gg)
    ensures Bounded(Sum(s, fg), Sum(s, ff), Sum(s, gg))
    decreases s
  {
    if s != {} {
      var w := Pick(s);
      var rest := s - {w};
      CauchySchwarz(rest, f, g, fg, ff, gg);
      assert Products(f(w), g(w), fg(w), ff(w), gg(w));
      ExtendBound(Sum(rest, fg), Sum(rest, ff), Sum(rest, gg), f(w), g(w), fg(w), ff(w), gg(w), Sum(s, fg), Sum(s, ff), Sum(s, gg));
    }
  }

  function CountIn(m: Counts): string -> real { (w: string) => CountOf(m, w) }

  lemma CountsPointwise(l: Counts, r: Counts)
    ensures Pointwise(CountIn(l), CountIn(r), Product(l, r), Product(l, l), Product(r, r))
  {
  }

  lemma ExtendBound(n: real, p: real, q: real, a: real, b: real, ab: real, aa: real, bb: real,
                    n': real, p': real, q': real)
    requires Bounded(n, p, q) && Products(a, b, ab, aa, bb)
    requires n' == ab + n && p' == aa + p && q' == bb + q
    ensures Bounded(n', p', q')
  {
    AddTerm(n, p, q, a, b);
  }

  lemma CountsNonNegative(l: Counts, r: Counts)
    ensures forall w :: Product(l, r)(w) >= 0.0
  {
    forall w ensures Product(l, r)(w) >= 0.0 {
      ProductNonNegative(CountOf(l, w), CountOf(r, w));
    }
  }

  lemma MultiplyBounds(a: real, b: real, c: real, d: real)
    requires 0.0 <= a <= c && 0.0 <= b <= d
    ensures a * b <= c * d
  {
    ScaleBy(a, c, b);
    ScaleBy(b, d, c);
  }

  lemma RootMonotone(x: real, y: real)
    requires x >= 0.0 && y >= 0.0 && x * x <= y * y
    ensures x <= y
  {
    if x > y {
      PositiveProduct(x - y, x);
      ProductNonNegative(x - y, y);
    }
  }

  lemma WidenBound(n: real, p: real, q: real, p': real, q': real)
    requires Bounded(n, p, q) && p <= p' && q <= q'
    ensures Bounded(n, p', q')
  {
    MultiplyBounds(p, q, p', q');
  }

  /** Words missing from the other text only lengthen the vectors. */
  lemma CauchySchwarzSubset(s: set<string>, left: set<string>, right: set<string>, f: string -> real, g: string -> real,
                            fg: string -> real, ff: string -> real, gg: string -> real)
    requires Pointwise(f, g, fg, ff, gg) && s <= left && s <= right
    requires (forall w :: ff(w) >= 0.0) && (forall w :: gg(w) >= 0.0)
    ensures Bounded(Sum(s, fg), Sum(left, ff), Sum(right, gg))
  {
    CauchySchwarz(s, f, g, fg, ff, gg);
    SumSubset(s, left, ff);
    SumSubset(s, right, gg);
    WidenBound(Sum(s, fg), Sum(s, ff), Sum(s, gg), Sum(left, ff), Sum(right, gg));
  }

  lemma NumeratorBounds(l: Counts, r: Counts)
    ensures Bounded(Numerator(l, r), SquareSum(l), SquareSum(r))
  {
    CountsPointwise(l, r);
    CountsNonNegative(l, l);
    CountsNonNegative(r, r);
    CauchySchwarzSubset(l.Keys * r.Keys, l.Keys, r.Keys, CountIn(l), CountIn(r), Product(l, r), Product(l, l), Product(r, r));
  }

  lemma RootsBound(n: real, p: real, q: real, x: real, y: real)
    requires n >= 0.0 && n * n <= p * q && x > 0.0 && y > 0.0 && x * x == p && y * y == q
    ensures n <= x * y
  {
    PositiveProduct(x, y);
    assert (x * y) * (x * y) == (x * x) * (y * y);
    RootMonotone(n, x * y);
  }

  /** Lexical scores lie in [0, 1]. */
  lemma CosineInUnitInterval(l: Counts, r: Counts, leftNorm: real, rightNorm: real)
    requires IsRoot(leftNorm, SquareSum(l)) && IsRoot(rightNorm, SquareSum(r))
    ensures 0.0 <= Cosine(l, r, leftNorm, rightNorm) <= 1.0
  {
    if leftNorm != 0.0 && rightNorm != 0.0 {
      NumeratorBounds(l, r);
      RootsBound(Numerator(l, r), SquareSum(l), SquareSum(r), leftNorm, rightNorm);
      PositiveProduct(leftNorm, rightNorm);
      UnitQuotient(Numerator(l, r), leftNorm * rightNorm);
    }
  }

  /** The score is positive exactly when the two texts share a term. */
  lemma CosinePositiveIff(l: Counts, r: Counts, leftNorm: real, rightNorm: real)
    requires IsRoot(leftNorm, SquareSum(l)) && IsRoot(rightNorm, SquareSum(r))
    requires (forall w :: w in l ==> l[w] > 0.0) && (forall w :: w in r ==> r[w] > 0.0)
    ensures Cosine(l, r, leftNorm, rightNorm) > 0.0 <==> l.Keys * r.Keys != {}
  {
    var common := l.Keys * r.Keys;
    if common != {} {
      var w :| w in common;
      TermPositive(l, r, w, common);
      TermPositive(l, l, w, l.Keys);
      TermPositive(r, r, w, r.Keys);
      assert leftNorm != 0.0 && rightNorm != 0.0;
      PositiveProduct(leftNorm, rightNorm);
      PositiveQuotient(Numerator(l, r), leftNorm * rightNorm);
    }
  }

  lemma TermPositive(l: Counts, r: Counts, w: string, s: set<string>)
    requires w in l && w in r && l[w] > 0.0 && r[w] > 0.0 && w in s
    ensures Sum(s, Product(l, r)) > 0.0
  {
    SumRemove(s, Product(l, r), w);
    CountsNonNegative(l, r);
    SumNonNegative(s - {w}, Product(l, r));
    PositiveProduct(CountOf(l, w), CountOf(r, w));
  }

  /* ---- what a score of 1 means ---- */

  /** x * x * p - 2 * x * y * n + y * y * q, term by term. */
  function Gap(x: real, y: real, aa: real, ab: real, bb: real): real { y * y * aa - 2.0 * (x * y) * ab + x * x * bb }

  lemma {:induction false} SumGap(s: set<string>, x: real, y: real, aa: string -> real, ab: string -> real, bb: string -> real,
                                  gap: string -> real)
    requires forall w :: gap(w) == Gap(x, y, aa(w), ab(w), bb(w))
    ensures Sum(s, gap) == Gap(x, y, Sum(s, aa), Sum(s, ab), Sum(s, bb))
    decreases s
  {
    if s == {} {
      assert Gap(x, y, 0.0, 0.0, 0.0) == 0.0;
    } else {
      var w := Pick(s);
      SumGap(s - {w}, x, y, aa, ab, bb, gap);
      GapAdds(x, y, aa(w), ab(w), bb(w), Sum(s - {w}, aa), Sum(s - {w}, ab), Sum(s - {w}, bb));
    }
  }

  lemma GapAdds(x: real, y: real, p: real, n: real, q: real, p': real, n': real, q': real)
    ensures Gap(x, y, p + p', n + n', q + q') == Gap(x, y, p, n, q) + Gap(x, y, p', n', q')
  {
    assert y * y * (p + p') == y * y * p + y * y * p';
    assert 2.0 * (x * y) * (n + n') == 2.0 * (x * y) * n + 2.0 * (x * y) * n';
    assert x * x * (q + q') == x * x * q + x * x * q';
  }

  lemma {:induction false} SumZero(s: set<string>, f: string -> real, w: string)
    requires (forall v :: f(v) >= 0.0) && Sum(s, f) == 0.0 && w in s
    ensures f(w) == 0.0
  {
    SumRemove(s, f, w);
    SumNonNegative(s - {w}, f);
  }

  /** Words that occur in neither text add nothing. */
  lemma {:induction false} SumWiden(s: set<string>, t: set<string>, f: string -> real)
    requires s <= t && forall w :: w in t && w !in s ==> f(w) == 0.0
    ensures Sum(t, f) == Sum(s, f)
    decreases t
  {
    if s != t {
      var w :| w in t && w !in s;
      SumRemove(t, f, w);
      SumWiden(s, t - {w}, f);
    }
  }

  function Square(z: real): real { z * z }

  lemma GapIsSquare(x: real, y: real, a: real, b: real, aa: real, ab: real, bb: real)
    requires aa == a * a && ab == a * b && bb == b * b
    ensures Gap(x, y, aa, ab, bb) == Square(a * y - b * x)
  {
    assert (a * y - b * x) * (a * y - b * x) == (a * y) * (a * y) - 2.0 * ((a * y) * (b * x)) + (b * x) * (b * x);
    assert (a * y) * (a * y) == y * y * (a * a);
    assert (a * y) * (b * x) == (x * y) * (a * b);
    assert (b * x) * (b * x) == x * x * (b * b);
  }

  lemma ZeroSquare(z: real)
    requires Square(z) == 0.0
    ensures z == 0.0
  {
    if z != 0.0 { SquarePositive(z); }
  }

  lemma SquarePositive(z: real)
    requires z != 0.0
    ensures Square(z) > 0.0
  {
    var y := if z > 0.0 then z else 0.0 - z;
    assert Square(y) == Square(z);
    NamedProduct(y, y, Square(y));
  }

  lemma NamedProduct(x: real, y: real, p: real)
    requires x > 0.0 && y > 0.0 && p == x * y
    ensures p > 0.0
  {
    PositiveProduct(x, y);
  }

  function GapOf(l: Counts, r: Counts, x: real, y: real): string -> real {
    (w: string) => Gap(x, y, Product(l, l)(w), Product(l, r)(w), Product(r, r)(w))
  }

  lemma GapAt(l: Counts, r: Counts, x: real, y: real, w: string)
    ensures GapOf(l, r, x, y)(w) == Square(CountOf(l, w) * y - CountOf(r, w) * x) >= 0.0
  {
    GapIsSquare(x, y, CountOf(l, w), CountOf(r, w), Product(l, l)(w), Product(l, r)(w), Product(r, r)(w));
    SquareNonNegative(CountOf(l, w) * y - CountOf(r, w) * x);
  }

  lemma GapNonNegative(l: Counts, r: Counts, x: real, y: real)
    ensures forall w :: GapOf(l, r, x, y)(w) >= 0.0
  {
    forall w ensures GapOf(l, r, x, y)(w) >= 0.0 {
      GapAt(l, r, x, y, w);
    }
  }

  /** All words of both texts, summed: |l|^2, the dot product and |r|^2. */
  lemma SumsOverBoth(l: Counts, r: Counts)
    ensures Sum(l.Keys + r.Keys, Product(l, l)) == SquareSum(l)
    ensures Sum(l.Keys + r.Keys, Product(r, r)) == SquareSum(r)
    ensures Sum(l.Keys + r.Keys, Product(l, r)) == Numerator(l, r)
  {
    SumWiden(l.Keys, l.Keys + r.Keys, Product(l, l));
    SumWiden(r.Keys, l.Keys + r.Keys, Product(r, r));
    SumWiden(l.Keys * r.Keys, l.Keys + r.Keys, Product(l, r));
  }

  lemma GapCloses(n: real, x: real, y: real)
    requires n == x * y
    ensures Gap(x, y, x * x, n, y * y) == 0.0
  {
    assert y * y * (x * x) == (x * y) * (x * y);
    assert x * x * (y * y) == (x * y) * (x * y);
  }

  lemma UnitMeansEqual(n: real, d: real)
    requires d > 0.0 && n / d == 1.0
    ensures n == d
  {
    assert n == (n / d) * d;
  }

  /** A score of 1 means that the counts of the two texts are proportional. */
  lemma UnitScoreIsProportional(l: Counts, r: Counts, x: real, y: real, w: string)
    requires IsRoot(x, SquareSum(l)) && IsRoot(y, SquareSum(r)) && Cosine(l, r, x, y) == 1.0
    ensures x > 0.0 && y > 0.0 && CountOf(l, w) * y == CountOf(r, w) * x
  {
    PositiveProduct(x, y);
    UnitMeansEqual(Numerator(l, r), x * y);
    SumsOverBoth(l, r);
    SumGap(l.Keys + r.Keys, x, y, Product(l, l), Product(l, r), Product(r, r), GapOf(l, r, x, y));
    GapCloses(Numerator(l, r), x, y);
    GapNonNegative(l, r, x, y);
    if w in l.Keys + r.Keys {
      SumZero(l.Keys + r.Keys, GapOf(l, r, x, y), w);
      GapAt(l, r, x, y, w);
      ZeroSquare(CountOf(l, w) * y - CountOf(r, w) * x);
    }
  }

  function Scaled(m: Counts, k: real): Counts
    requires k >= 0.0
  {
    map w | w in m :: Times(m[w], k)
  }

  function Times(c: Count, k: real): Count
    requires k >= 0.0
  {
    ProductNonNegative(c, k);
    c * k
  }

  function By(x: real, k: real): real { x * k }

  lemma ByAdds(x: real, y: real, k: real)
    ensures By(x + y, k) == By(x, k) + By(y, k)
  {
  }

  lemma {:induction false} SumScales(s: set<string>, f: string -> real, g: string -> real, k: real)
    requires forall w :: w in s ==> g(w) == By(f(w), k)
    ensures Sum(s, g) == By(Sum(s, f), k)
    decreases s
  {
    if s != {} {
      var w := Pick(s);
      SumScales(s - {w}, f, g, k);
      ByAdds(f(w), Sum(s - {w}, f), k);
    }
  }

  lemma ScaledAt(m: Counts, k: real, w: string)
    requires k >= 0.0 && w in m
    ensures Product(m, Scaled(m, k))(w) == By(Product(m, m)(w), k)
    ensures Product(Scaled(m, k), Scaled(m, k))(w) == By(Product(m, m)(w), k * k)
  {
    var a: real := m[w];
    assert CountOf(m, w) == a && CountOf(Scaled(m, k), w) == a * k;
    assert a * (a * k) == (a * a) * k;
    assert (a * k) * (a * k) == (a * a) * (k * k);
  }

  lemma ScaledSums(m: Counts, k: real)
    requires k >= 0.0
    ensures Numerator(m, Scaled(m, k)) == By(SquareSum(m), k)
    ensures SquareSum(Scaled(m, k)) == By(SquareSum(m), k * k)
  {
    var t := Scaled(m, k);
    assert m.Keys * t.Keys == m.Keys && t.Keys == m.Keys;
    forall w | w in m.Keys
      ensures Product(m, t)(w) == By(Product(m, m)(w), k) && Product(t, t)(w) == By(Product(m, m)(w), k * k)
    {
      ScaledAt(m, k, w);
    }
    SumScales(m.Keys, Product(m, m), Product(m, t), k);
    SumScales(m.Keys, Product(m, m), Product(t, t), k * k);
  }

  lemma RootsScale(x: real, y: real, q: real, k: real)
    requires x > 0.0 && y >= 0.0 && k > 0.0 && x * x == q && y * y == By(q, k * k)
    ensures y == x * k && x * y == By(q, k)
  {
    PositiveProduct(x, k);
    assert (x * k) * (x * k) == (x * x) * (k * k);
    RootMonotone(y, x * k);
    RootMonotone(x * k, y);
    assert x * (x * k) == (x * x) * k;
  }

  /** A text and any scaled copy of it, itself included, have similarity 1. */
  lemma ScaledCopyScoresOne(m: Counts, k: real, x: real, y: real)
    requires k > 0.0 && IsRoot(x, SquareSum(m)) && x > 0.0 && IsRoot(y, SquareSum(Scaled(m, k)))
    ensures Cosine(m, Scaled(m, k), x, y) == 1.0
  {
    ScaledSums(m, k);
    RootsScale(x, y, SquareSum(m), k);
    PositiveProduct(x, k);
    PositiveProduct(x, y);
    UnitQuotient(Numerator(m, Scaled(m, k)), x * y);
  }

  /** A text has similarity 1 with itself. */
  lemma SelfScoresOne(m: Counts, x: real)
    requires IsRoot(x, SquareSum(m)) && x > 0.0
    ensures Cosine(m, m, x, x) == 1.0
  {
    assert m.Keys * m.Keys == m.Keys;
    assert Numerator(m, m) == SquareSum(m) == x * x;
    SquarePositive(x);
    UnitQuotient(Square(x), Square(x));
  }
}
