/** The stable sort by a key that `sorted` and `list.sort` perform. */
module Sorting {

  /** `x` goes after everything whose key is not greater. */
  function InsertLast<T>(key: T -> real, xs: seq<T>, x: T): seq<T> {
    if xs == [] || key(xs[|xs| - 1]) <= key(x) then xs + [x]
    else InsertLast(key, xs[..|xs| - 1], x) + [xs[|xs| - 1]]
  }

  function SortBy<T>(key: T -> real, xs: seq<T>): seq<T> {
    if xs == [] then [] else InsertLast(key, SortBy(key, xs[..|xs| - 1]), xs[|xs| - 1])
  }

  predicate SortedBy<T>(key: T -> real, xs: seq<T>) {
    forall i, j :: 0 <= i < j < |xs| ==> key(xs[i]) <= key(xs[j])
  }

  lemma {:induction false} InsertLastPermutes<T>(key: T -> real, xs: seq<T>, x: T)
    ensures multiset(InsertLast(key, xs, x)) == multiset(xs) + multiset{x}
  {
    if xs != [] && key(xs[|xs| - 1]) > key(x) {
      InsertLastPermutes(key, xs[..|xs| - 1], x);
      assert xs == xs[..|xs| - 1] + [xs[|xs| - 1]];
    }
  }

  lemma {:induction false} InsertLastSorts<T>(key: T -> real, xs: seq<T>, x: T)
    requires SortedBy(key, xs)
    ensures SortedBy(key, InsertLast(key, xs, x))
  {
    if xs != [] && key(xs[|xs| - 1]) > key(x) {
      var front, last := xs[..|xs| - 1], xs[|xs| - 1];
      InsertLastSorts(key, front, x);
      InsertLastPermutes(key, front, x);
      var r := InsertLast(key, front, x);
      forall i | 0 <= i < |r| ensures key(r[i]) <= key(last) {
        assert r[i] in multiset(r);
        assert r[i] in multiset(front) || r[i] == x;
      }
    }
  }

  lemma {:induction false} SortBySorts<T>(key: T -> real, xs: seq<T>)
    ensures SortedBy(key, SortBy(key, xs))
    ensures multiset(SortBy(key, xs)) == multiset(xs)
    ensures |SortBy(key, xs)| == |xs|
  {
    if xs != [] {
      var front, last := xs[..|xs| - 1], xs[|xs| - 1];
      SortBySorts(key, front);
      InsertLastSorts(key, SortBy(key, front), last);
      InsertLastPermutes(key, SortBy(key, front), last);
      assert xs == front + [last];
    }
    assert |SortBy(key, xs)| == |multiset(SortBy(key, xs))| && |xs| == |multiset(xs)|;
  }

  lemma SortByMembers<T>(key: T -> real, xs: seq<T>, x: T)
    ensures x in SortBy(key, xs) <==> x in xs
  {
    SortBySorts(key, xs);
    assert x in SortBy(key, xs) <==> x in multiset(SortBy(key, xs));
  }
}
