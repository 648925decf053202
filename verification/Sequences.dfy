/** Generic sequence operations shared by the models: list comprehensions become
    `Filter` and `Map`, and every loop in the project extends its input on the right,
    so all recursion here peels the last element. */
module Sequences {

  datatype Option<+T> = None | Some(value: T)

  function Init<T>(s: seq<T>): seq<T>
    requires s != []
  {
    s[..|s| - 1]
  }

  function Last<T>(s: seq<T>): T
    requires s != []
  {
    s[|s| - 1]
  }

  function FirstN<T>(s: seq<T>, n: nat): seq<T> { if n <= |s| then s[..n] else s }

  function Filter<T>(p: T -> bool, s: seq<T>): (r: seq<T>)
    ensures |r| <= |s|
  {
    if s == [] then [] else Filter(p, Init(s)) + if p(Last(s)) then [Last(s)] else []
  }

  function Map<A, B>(f: A -> B, s: seq<A>): (r: seq<B>)
    ensures |r| == |s|
    ensures forall i :: 0 <= i < |s| ==> r[i] == f(s[i])
  {
    seq(|s|, i requires 0 <= i < |s| => f(s[i]))
  }

  /** The concatenation of all the lists in `s`, in order. */
  function Flatten<T>(s: seq<seq<T>>): seq<T> {
    if s == [] then [] else Flatten(Init(s)) + Last(s)
  }

  ghost predicate Distinct<T>(s: seq<T>) {
    forall i, j :: 0 <= i < j < |s| ==> s[i] != s[j]
  }

  lemma {:induction false} FilterMember<T>(p: T -> bool, s: seq<T>)
    ensures forall x :: x in Filter(p, s) <==> x in s && p(x)
  {
    if s != [] {
      FilterMember(p, Init(s));
      assert s == Init(s) + [Last(s)];
    }
  }

  lemma {:induction false} FilterConcat<T>(p: T -> bool, a: seq<T>, b: seq<T>)
    ensures Filter(p, a + b) == Filter(p, a) + Filter(p, b)
  {
    if b == [] {
      assert a + b == a;
    } else {
      assert Init(a + b) == a + Init(b) && Last(a + b) == Last(b);
      FilterConcat(p, a, Init(b));
      var kept := if p(Last(b)) then [Last(b)] else [];
      assert Filter(p, a + b) == Filter(p, a) + Filter(p, Init(b)) + kept;
    }
  }

  /** Filtering commutes with a rewrite that does not change the tested property. */
  lemma FilterOne<T>(p: T -> bool, x: T)
    ensures Filter(p, [x]) == if p(x) then [x] else []
    ensures Filter(p, []) == []
  {
    assert Init([x]) == [] && Last([x]) == x;
  }

  lemma {:induction false} FilterMap<T>(p: T -> bool, f: T -> T, s: seq<T>)
    requires forall x :: x in s ==> p(f(x)) == p(x)
    ensures Filter(p, Map(f, s)) == Map(f, Filter(p, s))
  {
    if s != [] {
      assert s == Init(s) + [Last(s)];
      assert Init(Map(f, s)) == Map(f, Init(s));
      FilterMap(p, f, Init(s));
    }
  }

  lemma {:induction false} FilterSame<T>(p: T -> bool, q: T -> bool, s: seq<T>)
    requires forall x :: x in s ==> p(x) == q(x)
    ensures Filter(p, s) == Filter(q, s)
  {
    if s != [] {
      assert s == Init(s) + [Last(s)];
      FilterSame(p, q, Init(s));
    }
  }

  /** A weaker filter applied first makes no difference. */
  lemma {:induction false} FilterAbsorb<T>(weak: T -> bool, strong: T -> bool, s: seq<T>)
    requires forall x :: x in s && strong(x) ==> weak(x)
    ensures Filter(strong, Filter(weak, s)) == Filter(strong, s)
  {
    if s != [] {
      assert s == Init(s) + [Last(s)];
      FilterAbsorb(weak, strong, Init(s));
      FilterConcat(strong, Filter(weak, Init(s)), if weak(Last(s)) then [Last(s)] else []);
      assert weak(Last(s)) ==> Init([Last(s)]) == [];
    }
  }

  lemma {:induction false} FilterSwap<T>(p: T -> bool, q: T -> bool, s: seq<T>)
    ensures Filter(p, Filter(q, s)) == Filter(q, Filter(p, s))
  {
    if s != [] {
      FilterSwap(p, q, Init(s));
      FilterConcat(p, Filter(q, Init(s)), if q(Last(s)) then [Last(s)] else []);
      FilterConcat(q, Filter(p, Init(s)), if p(Last(s)) then [Last(s)] else []);
      assert Init([Last(s)]) == [];
    }
  }

  lemma {:induction false} FilterNone<T>(p: T -> bool, s: seq<T>)
    requires forall x :: x in s ==> !p(x)
    ensures Filter(p, s) == []
  {
    if s != [] {
      assert s == Init(s) + [Last(s)];
      FilterNone(p, Init(s));
    }
  }

  lemma {:induction false} FilterAll<T>(p: T -> bool, s: seq<T>)
    requires forall x :: x in s ==> p(x)
    ensures Filter(p, s) == s
  {
    if s != [] {
      assert s == Init(s) + [Last(s)];
      FilterAll(p, Init(s));
    }
  }

  lemma MapIdentity<T>(f: T -> T, s: seq<T>)
    requires forall x :: x in s ==> f(x) == x
    ensures Map(f, s) == s
  {
  }

  /** A list without repetition, in order of first occurrence. */
  function FirstOccurrences<T(==)>(s: seq<T>): seq<T> {
    if s == [] then []
    else if Last(s) in FirstOccurrences(Init(s)) then FirstOccurrences(Init(s))
    else FirstOccurrences(Init(s)) + [Last(s)]
  }

  lemma {:induction false} FirstOccurrencesMember<T>(s: seq<T>)
    ensures Distinct(FirstOccurrences(s))
    ensures forall x :: x in FirstOccurrences(s) <==> x in s
  {
    if s != [] {
      FirstOccurrencesMember(Init(s));
      assert s == Init(s) + [Last(s)];
    }
  }

  lemma {:induction false} FlattenMember<T>(s: seq<seq<T>>, x: T)
    ensures x in Flatten(s) <==> exists i :: 0 <= i < |s| && x in s[i]
  {
    if s != [] {
      FlattenMember(Init(s), x);
      if x in Last(s) {
        assert x in s[|s| - 1];
      }
      if i :| 0 <= i < |Init(s)| && x in Init(s)[i] {
        assert x in s[i];
      }
    }
  }

  /** The order is that of first occurrence: a longer list only adds at the end. */
  lemma {:induction false} FirstOccurrencesPrefix<T>(s: seq<T>, n: nat)
    requires n <= |s|
    ensures FirstOccurrences(s[..n]) <= FirstOccurrences(s)
  {
    if n < |s| {
      FirstOccurrencesPrefix(Init(s), n);
      assert Init(s)[..n] == s[..n];
    } else {
      assert s[..n] == s;
    }
  }
}
