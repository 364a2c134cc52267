/** The standard library's stable sort, by the order it promises. */
module Sorting {

  /** Every earlier element is related to every later one. */
  ghost predicate Pairwise<T>(s: seq<T>, rel: (T, T) -> bool) {
    forall i, j :: 0 <= i < j < |s| ==> rel(s[i], s[j])
  }

  ghost predicate Transitive<T(!new)>(rel: (T, T) -> bool) {
    forall a, b, c :: rel(a, b) && rel(b, c) ==> rel(a, c)
  }

  ghost predicate Total<T(!new)>(rel: (T, T) -> bool) {
    forall a, b :: rel(a, b) || rel(b, a)
  }

  /** Before the first element that is not smaller. */
  function Insert<T>(x: T, s: seq<T>, leq: (T, T) -> bool): (r: seq<T>) {
    if s == [] || leq(x, s[0]) then [x] + s else [s[0]] + Insert(x, s[1..], leq)
  }

  function StableSort<T>(s: seq<T>, leq: (T, T) -> bool): (r: seq<T>) {
    if s == [] then [] else Insert(s[0], StableSort(s[1..], leq), leq)
  }

  lemma {:induction false} InsertKeepsElements<T>(x: T, s: seq<T>, leq: (T, T) -> bool)
    ensures multiset(Insert(x, s, leq)) == multiset(s) + multiset{x}
  {
    if s != [] && !leq(x, s[0]) {
      InsertKeepsElements(x, s[1..], leq);
      assert s == [s[0]] + s[1..];
    }
  }

  /** Nothing is lost, nothing is added. */
  lemma {:induction false} SortPermutes<T>(s: seq<T>, leq: (T, T) -> bool)
    ensures multiset(StableSort(s, leq)) == multiset(s)
  {
    if s != [] {
      SortPermutes(s[1..], leq);
      InsertKeepsElements(s[0], StableSort(s[1..], leq), leq);
      assert s == [s[0]] + s[1..];
    }
  }

  lemma SameElements<T>(a: seq<T>, b: seq<T>)
    requires multiset(a) == multiset(b)
    ensures |a| == |b| && forall x :: x in a <==> x in b
  {
    assert |multiset(a)| == |a| && |multiset(b)| == |b|;
    forall x
      ensures x in a <==> x in b
    {
      assert x in a <==> x in multiset(a);
    }
  }

  /** `a` may stand before `b`; when the order does not tell them apart, only in the order they came. */
  predicate Before<T>(leq: (T, T) -> bool, came: (T, T) -> bool, a: T, b: T) {
    leq(a, b) && (leq(b, a) ==> came(a, b))
  }

  lemma PrependPairwise<T>(x: T, s: seq<T>, rel: (T, T) -> bool)
    requires Pairwise(s, rel) && forall y :: y in s ==> rel(x, y)
    ensures Pairwise([x] + s, rel)
  {
  }

  lemma {:induction false} InsertKeepsOrder<T(!new)>(
      x: T, s: seq<T>, leq: (T, T) -> bool, came: (T, T) -> bool)
    requires Transitive(leq) && Total(leq)
    requires Pairwise(s, (a, b) => Before(leq, came, a, b))
    requires forall y :: y in s ==> came(x, y)
    ensures Pairwise(Insert(x, s, leq), (a, b) => Before(leq, came, a, b))
  {
    var rel := (a, b) => Before(leq, came, a, b);
    if s == [] {
    } else if leq(x, s[0]) {
      forall y | y in s
        ensures rel(x, y)
      {
        assert y == s[0] || rel(s[0], y);
      }
      PrependPairwise(x, s, rel);
    } else {
      InsertKeepsOrder(x, s[1..], leq, came);
      InsertKeepsElements(x, s[1..], leq);
      SameElements(Insert(x, s[1..], leq), [x] + s[1..]);
      forall y | y in Insert(x, s[1..], leq)
        ensures rel(s[0], y)
      {
        assert y == x || y in s[1..];
      }
      PrependPairwise(s[0], Insert(x, s[1..], leq), rel);
    }
  }

  /** The result is in order, and elements of one rank stay as they came. */
  lemma {:induction false} SortIsStable<T(!new)>(s: seq<T>, leq: (T, T) -> bool, came: (T, T) -> bool)
    requires Transitive(leq) && Total(leq) && Pairwise(s, came)
    ensures Pairwise(StableSort(s, leq), (a, b) => Before(leq, came, a, b))
  {
    if s != [] {
      SortIsStable(s[1..], leq, came);
      SortPermutes(s[1..], leq);
      SameElements(StableSort(s[1..], leq), s[1..]);
      InsertKeepsOrder(s[0], StableSort(s[1..], leq), leq, came);
    }
  }

  lemma Tail<T>(s: seq<T>)
    requires s != []
    ensures multiset(s[1..]) == multiset(s) - multiset{s[0]}
  {
    assert s == [s[0]] + s[1..];
  }

  lemma HeadsAgree<T>(a: seq<T>, b: seq<T>, rel: (T, T) -> bool)
    requires Pairwise(a, rel) && Pairwise(b, rel) && a != [] && b != [] && a[0] in b && b[0] in a
    requires rel(a[0], b[0]) && rel(b[0], a[0]) ==> a[0] == b[0]
    ensures a[0] == b[0]
  {
  }

  /** Where the order ties no two elements, there is one way to arrange them. */
  lemma {:induction false} ArrangementIsUnique<T>(a: seq<T>, b: seq<T>, rel: (T, T) -> bool)
    requires Pairwise(a, rel) && Pairwise(b, rel) && multiset(a) == multiset(b)
    requires forall x, y :: x in a && y in a && rel(x, y) && rel(y, x) ==> x == y
    ensures a == b
  {
    SameElements(a, b);
    if a != [] {
      HeadsAgree(a, b, rel);
      Tail(a);
      Tail(b);
      ArrangementIsUnique(a[1..], b[1..], rel);
      assert a == [a[0]] + a[1..] && b == [b[0]] + b[1..];
    }
  }

  /** The same elements, in this order. */
  ghost predicate Arranges<T>(r: seq<T>, s: seq<T>, rel: (T, T) -> bool) {
    multiset(r) == multiset(s) && Pairwise(r, rel)
  }

  function Map<S, T>(f: S -> T, s: seq<S>): (r: seq<T>)
    ensures |r| == |s| && forall i :: 0 <= i < |s| ==> r[i] == f(s[i])
  {
    if s == [] then [] else [f(s[0])] + Map(f, s[1..])
  }

  lemma Without<T>(s: seq<T>, i: nat)
    requires i < |s|
    ensures multiset(s[..i] + s[i + 1..]) == multiset(s) - multiset{s[i]}
  {
    assert s == s[..i] + [s[i]] + s[i + 1..];
  }

  lemma SkippedAt<T>(s: seq<T>, i: nat, k: nat)
    requires i < |s| && k < |s| - 1
    ensures (s[..i] + s[i + 1..])[k] == if k < i then s[k] else s[k + 1]
  {
  }

  lemma MapOfWithout<S, T>(f: S -> T, s: seq<S>, i: nat)
    requires i < |s|
    ensures Map(f, s[..i] + s[i + 1..]) == Map(f, s)[..i] + Map(f, s)[i + 1..]
  {
    hide Map;
    var rest, mapped := s[..i] + s[i + 1..], Map(f, s);
    var mappedRest := mapped[..i] + mapped[i + 1..];
    forall k | 0 <= k < |s| - 1
      ensures Map(f, rest)[k] == mappedRest[k]
    {
      SkippedAt(s, i, k);
      SkippedAt(mapped, i, k);
    }
  }

  lemma MapWithout<S, T>(f: S -> T, s: seq<S>, i: nat)
    requires i < |s|
    ensures multiset(Map(f, s[..i] + s[i + 1..])) == multiset(Map(f, s)) - multiset{f(s[i])}
  {
    hide Map;
    MapOfWithout(f, s, i);
    Without(Map(f, s), i);
  }

  lemma {:induction false} MapPermutes<S, T>(f: S -> T, a: seq<S>, b: seq<S>)
    requires multiset(a) == multiset(b)
    ensures multiset(Map(f, a)) == multiset(Map(f, b))
  {
    SameElements(a, b);
    if a != [] {
      assert a[0] in b;
      var i :| 0 <= i < |b| && b[i] == a[0];
      Tail(a);
      Without(b, i);
      MapPermutes(f, a[1..], b[..i] + b[i + 1..]);
      MapWithout(f, b, i);
      assert Map(f, a) == [f(a[0])] + Map(f, a[1..]);
    }
  }
}
