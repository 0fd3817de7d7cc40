/** `sort_by_key` and `sort_by` on a numeric key: a stable insertion sort, smallest key first. */
module Sorting {
  import opened Basics

  ghost predicate Sorted<T>(key: T -> real, s: seq<T>) {
    forall i, j :: 0 <= i < j < |s| ==> key(s[i]) <= key(s[j])
  }

  function InsertBy<T>(key: T -> real, x: T, s: seq<T>): seq<T> {
    if s == [] || key(x) <= key(s[0]) then [x] + s else [s[0]] + InsertBy(key, x, s[1..])
  }

  function SortBy<T>(key: T -> real, s: seq<T>): seq<T> {
    if s == [] then [] else InsertBy(key, s[0], SortBy(key, s[1..]))
  }

  lemma {:induction false} InsertKeeps<T>(key: T -> real, x: T, s: seq<T>)
    requires Sorted(key, s)
    ensures Sorted(key, InsertBy(key, x, s)) && multiset(InsertBy(key, x, s)) == multiset{x} + multiset(s)
    ensures |InsertBy(key, x, s)| == |s| + 1
  {
    if s != [] && key(x) > key(s[0]) {
      var rest := InsertBy(key, x, s[1..]);
      InsertKeeps(key, x, s[1..]);
      assert s == [s[0]] + s[1..];
      forall y | y in rest ensures key(s[0]) <= key(y) {
        assert y in multiset(rest);
        assert y == x || y in s[1..];
      }
      PrependSorted(key, s[0], rest);
    } else {
      PrependSorted(key, x, s);
    }
  }

  lemma PrependSorted<T>(key: T -> real, x: T, s: seq<T>)
    requires Sorted(key, s) && forall y :: y in s ==> key(x) <= key(y)
    ensures Sorted(key, [x] + s)
  {
  }

  /** The result is in order and has exactly the same elements. */
  lemma {:induction false} SortSorts<T>(key: T -> real, s: seq<T>)
    ensures Sorted(key, SortBy(key, s)) && multiset(SortBy(key, s)) == multiset(s) && |SortBy(key, s)| == |s|
  {
    hide InsertBy;
    if s != [] {
      SortSorts(key, s[1..]);
      hide Sorted;
      InsertKeeps(key, s[0], SortBy(key, s[1..]));
      assert s == [s[0]] + s[1..];
    }
  }

  lemma SameElements<T>(a: seq<T>, b: seq<T>)
    requires multiset(a) == multiset(b)
    ensures forall x :: x in a <==> x in b
  {
    forall x ensures x in a <==> x in b {
      assert x in multiset(a) <==> x in multiset(b);
    }
  }

  lemma {:induction false} CountDistinct<T>(s: seq<T>, x: T)
    requires Distinct(s)
    ensures multiset(s)[x] <= 1
  {
    if s != [] {
      CountDistinct(s[1..], x);
      assert s == [s[0]] + s[1..];
      assert s[0] !in s[1..];
    }
  }

  /** Reordering keeps a list free of repetition. */
  lemma StillDistinct<T>(a: seq<T>, b: seq<T>)
    requires multiset(a) == multiset(b) && Distinct(a)
    ensures Distinct(b)
  {
    forall i, j | 0 <= i < j < |b| ensures b[i] != b[j] {
      if b[i] == b[j] {
        assert b == b[..i] + [b[i]] + b[i + 1..j] + [b[j]] + b[j + 1..];
        CountDistinct(a, b[i]);
      }
    }
  }
}
