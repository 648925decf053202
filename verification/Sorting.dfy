/** Stable sorting by an order, as Python's sorted does it. */
module Sorting {
  import opened Sequences

  function InsertBy<T>(le: (T, T) -> bool, x: T, s: seq<T>): seq<T> {
    if s == [] || le(Last(s), x) then s + [x] else InsertBy(le, x, Init(s)) + [Last(s)]
  }

  function SortBy<T>(le: (T, T) -> bool, s: seq<T>): seq<T> {
    if s == [] then [] else InsertBy(le, Last(s), SortBy(le, Init(s)))
  }

  ghost predicate Order<T(!new)>(le: (T, T) -> bool) {
    && (forall x, y :: le(x, y) || le(y, x))
    && (forall x, y, z :: le(x, y) && le(y, z) ==> le(x, z))
  }

  ghost predicate SortedBy<T>(le: (T, T) -> bool, s: seq<T>) {
    forall i, j :: 0 <= i < j < |s| ==> le(s[i], s[j])
  }

  lemma {:induction false} InsertPermutes<T>(le: (T, T) -> bool, x: T, s: seq<T>)
    ensures multiset(InsertBy(le, x, s)) == multiset(s) + multiset{x}
  {
    if s != [] && !le(Last(s), x) {
      InsertPermutes(le, x, Init(s));
      assert s == Init(s) + [Last(s)];
    }
  }

  lemma {:induction false} InsertSorts<T(!new)>(le: (T, T) -> bool, x: T, s: seq<T>)
    requires Order(le) && SortedBy(le, s)
    ensures SortedBy(le, InsertBy(le, x, s))
  {
    if s == [] {
    } else if le(Last(s), x) {
      assert forall i :: 0 <= i < |s| - 1 ==> le(s[i], Last(s));
    } else {
      var rest := InsertBy(le, x, Init(s));
      InsertSorts(le, x, Init(s));
      InsertPermutes(le, x, Init(s));
      forall i | 0 <= i < |rest| ensures le(rest[i], Last(s)) {
        assert rest[i] in multiset(rest);
        if rest[i] != x {
          var j :| 0 <= j < |s| - 1 && s[j] == rest[i];
        }
      }
    }
  }

  /** Sorting by a total order gives a sorted permutation. */
  lemma {:induction false} SortCorrect<T(!new)>(le: (T, T) -> bool, s: seq<T>)
    requires Order(le)
    ensures SortedBy(le, SortBy(le, s)) && multiset(SortBy(le, s)) == multiset(s)
  {
    if s != [] {
      SortCorrect(le, Init(s));
      InsertSorts(le, Last(s), SortBy(le, Init(s)));
      InsertPermutes(le, Last(s), SortBy(le, Init(s)));
      assert s == Init(s) + [Last(s)];
    }
  }

  lemma SortMembers<T(!new)>(le: (T, T) -> bool, s: seq<T>)
    requires Order(le)
    ensures forall x :: x in SortBy(le, s) <==> x in s
    ensures |SortBy(le, s)| == |s|
  {
    SortCorrect(le, s);
    assert forall x :: x in SortBy(le, s) <==> x in multiset(SortBy(le, s));
    assert forall x :: x in s <==> x in multiset(s);
    assert |multiset(SortBy(le, s))| == |SortBy(le, s)| && |multiset(s)| == |s|;
  }
}
