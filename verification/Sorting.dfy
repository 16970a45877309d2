/** Go's `sort` package, seen from outside: whatever algorithm it runs, the result is a sorted
    permutation, and where the order separates distinct elements that result is unique. */
module Sorting {

  /** What `sort.Slice` asks of its comparison. */
  ghost predicate StrictWeak<T(!new)>(less: (T, T) -> bool) {
    && (forall x, y :: less(x, y) ==> !less(y, x))
    && (forall x, y, z :: !less(x, y) && !less(y, z) ==> !less(x, z))
  }

  ghost predicate StrictTotal<T(!new)>(lt: (T, T) -> bool) {
    && (forall x :: !lt(x, x))
    && (forall x, y, z :: lt(x, y) && lt(y, z) ==> lt(x, z))
    && (forall x, y :: x == y || lt(x, y) || lt(y, x))
  }

  ghost predicate Sorted<T>(less: (T, T) -> bool, s: seq<T>) {
    forall i, j :: 0 <= i < j < |s| ==> !less(s[j], s[i])
  }

  ghost predicate Ascending<T>(less: (T, T) -> bool, s: seq<T>) {
    forall i, j :: 0 <= i < j < |s| ==> less(s[i], s[j])
  }

  ghost predicate Distinct<T>(s: seq<T>) {
    forall i, j :: 0 <= i < j < |s| ==> s[i] != s[j]
  }

  function Insert<T>(less: (T, T) -> bool, x: T, s: seq<T>): (r: seq<T>)
    ensures multiset(r) == multiset{x} + multiset(s)
  {
    if s == [] || less(x, s[0]) then [x] + s
    else
      assert s == [s[0]] + s[1..];
      [s[0]] + Insert(less, x, s[1..])
  }

  function Sort<T>(less: (T, T) -> bool, s: seq<T>): (r: seq<T>)
    ensures multiset(r) == multiset(s)
    ensures |r| == |s|
  {
    if s == [] then [] else
      assert s == [s[0]] + s[1..];
      var r := Insert(less, s[0], Sort(less, s[1..]));
      assert |multiset(r)| == |r| && |multiset(s)| == |s|;
      r
  }

  lemma {:induction false} InsertSorted<T(!new)>(less: (T, T) -> bool, x: T, s: seq<T>)
    requires StrictWeak(less) && Sorted(less, s)
    ensures Sorted(less, Insert(less, x, s))
  {
    if s == [] || less(x, s[0]) {
      forall j | 0 < j < |s| + 1 ensures !less(([x] + s)[j], x) {
        assert j == 1 || !less(s[j - 1], s[0]);
        assert !less(s[0], x);
      }
    } else {
      var tail := Insert(less, x, s[1..]);
      InsertSorted(less, x, s[1..]);
      forall y | y in tail ensures !less(y, s[0]) {
        assert y in multiset(tail);
        assert y == x || y in s[1..];
      }
    }
  }

  lemma {:induction false} SortSorted<T(!new)>(less: (T, T) -> bool, s: seq<T>)
    requires StrictWeak(less)
    ensures Sorted(less, Sort(less, s))
  {
    if s != [] {
      SortSorted(less, s[1..]);
      InsertSorted(less, s[0], Sort(less, s[1..]));
    }
  }

  lemma SameHead<T(!new)>(less: (T, T) -> bool, a: seq<T>, b: seq<T>)
    requires a != [] && b != [] && Sorted(less, a) && Sorted(less, b) && a[0] in b && b[0] in a
    requires a[0] == b[0] || less(a[0], b[0]) || less(b[0], a[0])
    ensures a[0] == b[0]
  {
    var i :| 0 <= i < |b| && b[i] == a[0];
    var j :| 0 <= j < |a| && a[j] == b[0];
  }

  lemma TailMultiset<T>(a: seq<T>)
    requires a != []
    ensures multiset(a[1..]) == multiset(a) - multiset{a[0]}
  {
    assert a == [a[0]] + a[1..];
  }

  /** Two sorted arrangements of the same elements are the same list when the order tells
      distinct elements apart. */
  lemma {:induction false} SortedUnique<T(!new)>(less: (T, T) -> bool, a: seq<T>, b: seq<T>)
    requires Sorted(less, a) && Sorted(less, b) && multiset(a) == multiset(b)
    requires forall x, y :: x in a && y in a && x != y ==> less(x, y) || less(y, x)
    ensures a == b
  {
    assert |a| == |multiset(a)| == |multiset(b)| == |b|;
    if a != [] {
      assert a[0] in multiset(b) && b[0] in multiset(a);
      SameHead(less, a, b);
      TailMultiset(a);
      TailMultiset(b);
      SortedUnique(less, a[1..], b[1..]);
      assert a == [a[0]] + a[1..] && b == [b[0]] + b[1..];
    }
  }

  lemma {:induction false} DistinctCount<T>(s: seq<T>, x: T)
    requires Distinct(s)
    ensures multiset(s)[x] <= 1
  {
    if s != [] {
      assert s == [s[0]] + s[1..];
      DistinctCount(s[1..], x);
      if x == s[0] {
        assert x !in s[1..];
      }
    }
  }

  lemma RepeatedCount<T>(s: seq<T>, i: nat, j: nat)
    requires i < j < |s|
    ensures s[i] == s[j] ==> multiset(s)[s[i]] >= 2
  {
    assert s == s[..i] + [s[i]] + s[i + 1..j] + [s[j]] + s[j + 1..];
  }

  /** Distinctness depends on the elements only, not on their order. */
  lemma PermutationDistinct<T>(a: seq<T>, b: seq<T>)
    requires Distinct(a) && multiset(a) == multiset(b)
    ensures Distinct(b)
  {
    forall i, j | 0 <= i < j < |b| ensures b[i] != b[j] {
      DistinctCount(a, b[i]);
      RepeatedCount(b, i, j);
    }
  }

  /** Two duplicate-free lists with the same elements are permutations of each other. */
  lemma {:induction false} SameElements<T>(a: seq<T>, b: seq<T>)
    requires Distinct(a) && Distinct(b)
    requires forall x :: x in a <==> x in b
    ensures multiset(a) == multiset(b)
  {
    forall x ensures multiset(a)[x] == multiset(b)[x] {
      DistinctCount(a, x);
      DistinctCount(b, x);
      assert x in a <==> x in multiset(a);
      assert x in b <==> x in multiset(b);
    }
  }

  lemma SortMembers<T>(less: (T, T) -> bool, s: seq<T>)
    ensures forall x :: x in s <==> x in Sort(less, s)
  {
    forall x ensures x in s <==> x in Sort(less, s) {
      assert x in multiset(Sort(less, s)) <==> x in multiset(s);
    }
  }

  lemma TotalIsWeak<T(!new)>(less: (T, T) -> bool)
    requires StrictTotal(less)
    ensures StrictWeak(less)
  {
  }

  lemma SortAscends<T(!new)>(less: (T, T) -> bool, s: seq<T>)
    requires StrictTotal(less) && Distinct(s)
    ensures Ascending(less, Sort(less, s)) && forall x :: x in Sort(less, s) <==> x in s
  {
    TotalIsWeak(less);
    SortSorted(less, s);
    SortMembers(less, s);
    PermutationDistinct(s, Sort(less, s));
    SortedAscends(less, Sort(less, s));
  }

  lemma SortedAscends<T(!new)>(less: (T, T) -> bool, r: seq<T>)
    requires StrictTotal(less) && Distinct(r) && Sorted(less, r)
    ensures Ascending(less, r)
  {
  }

  /** Two ascending lists with the same members are the same list. */
  lemma AscendingUnique<T(!new)>(less: (T, T) -> bool, a: seq<T>, b: seq<T>)
    requires StrictWeak(less) && Ascending(less, a) && Ascending(less, b) && forall x :: x in a <==> x in b
    ensures a == b
  {
    AscendingIsDistinct(less, a);
    AscendingIsDistinct(less, b);
    SameElements(a, b);
    forall x, y | x in a && y in a && x != y ensures less(x, y) || less(y, x) {
      var i :| 0 <= i < |a| && a[i] == x;
      var j :| 0 <= j < |a| && a[j] == y;
    }
    SortedUnique(less, a, b);
  }

  lemma AscendingIsDistinct<T(!new)>(less: (T, T) -> bool, s: seq<T>)
    requires StrictWeak(less) && Ascending(less, s)
    ensures Distinct(s) && Sorted(less, s)
  {
  }

  /** Ranging over a Go map or set: every element once, in any order. */
  method Visit<T>(s: set<T>) returns (order: seq<T>)
    ensures Distinct(order) && |order| == |s|
    ensures forall x :: x in order <==> x in s
  {
    order := [];
    var rest := s;
    while rest != {}
      invariant rest <= s && Distinct(order) && |order| + |rest| == |s|
      invariant forall x :: x in order <==> x in s && x !in rest
    {
      var x :| x in rest;
      order, rest := order + [x], rest - {x};
    }
  }
}
