/** A strictly ascending list read as a circle: which of its arcs a given point lies in.
    Section 4.1.1 of RFC 4034 lays the names of a zone out in this way. */
module Circle {
  import opened Sorting

  /** In an ascending list, order is index order. */
  lemma IndexOrder<T(!new)>(less: (T, T) -> bool, s: seq<T>, i: nat, k: nat)
    requires StrictWeak(less) && Ascending(less, s) && i < |s| && k < |s|
    ensures less(s[i], s[k]) <==> i < k
    ensures s[i] == s[k] <==> i == k
  {
  }

  function FirstWhere<T>(s: seq<T>, p: T -> bool): (r: nat)
    ensures r <= |s| && forall i :: 0 <= i < r ==> !p(s[i])
    ensures r < |s| ==> p(s[r])
  {
    if s == [] || p(s[0]) then 0 else 1 + FirstWhere(s[1..], p)
  }

  /** The index after `i`, going round: `(i + 1) % n`. */
  function Succ(i: nat, n: nat): nat {
    if i + 1 == n then 0 else i + 1
  }

  /** Index at which the arc holding `q` starts: `q` itself if listed, else the last element
      before it, else (nothing is before it) the last element of all. */
  function ArcStart<T(==)>(less: (T, T) -> bool, s: seq<T>, q: T): (i: nat)
    requires s != []
    ensures i < |s|
  {
    var m := FirstWhere(s, x => x == q);
    if m < |s| then m
    else
      var g := FirstWhere(s, x => less(q, x));
      if g == 0 || g == |s| then |s| - 1 else g - 1
  }

  /** What a scan that looks for `q` and for the first element after `q` has found. */
  lemma ArcStartByScan<T>(less: (T, T) -> bool, s: seq<T>, q: T, first: nat)
    requires s != [] && first <= |s|
    requires q !in s
    requires forall k :: 0 <= k < first ==> !less(q, s[k])
    requires first < |s| ==> less(q, s[first])
    ensures ArcStart(less, s, q) == if first == 0 || first == |s| then |s| - 1 else first - 1
  {
    var p := x => less(q, x);
    var g := FirstWhere(s, p);
    assert first < |s| ==> p(s[first]);
    assert g < |s| ==> p(s[g]);
  }

  /** The scan behind `findNSECSpan`, for any comparison. */
  method FindArc<T(==)>(less: (T, T) -> bool, s: seq<T>, q: T) returns (start: nat, end: nat, found: bool)
    requires s != []
    ensures start == ArcStart(less, s, q) && end == Succ(start, |s|)
    ensures found == (q in s)
  {
    var insertIndex := |s|;
    for i := 0 to |s|
      invariant q !in s[..i]
      invariant insertIndex == |s| || 0 <= insertIndex < i
      invariant forall k :: 0 <= k < i && k < insertIndex ==> !less(q, s[k])
      invariant insertIndex < |s| ==> less(q, s[insertIndex])
    {
      if s[i] == q {
        ArcStartOfListed(less, s, q, i);
        return i, Succ(i, |s|), true;
      }
      if insertIndex == |s| && less(q, s[i]) {
        insertIndex := i;
      }
    }
    assert s[..|s|] == s;
    ArcStartByScan(less, s, q, insertIndex);
    if insertIndex == |s| {
      insertIndex := 0;
    }
    start := if insertIndex == 0 then |s| - 1 else insertIndex - 1;
    return start, insertIndex, false;
  }

  lemma ArcStartOfListed<T>(less: (T, T) -> bool, s: seq<T>, q: T, i: nat)
    requires i < |s| && s[i] == q && forall k :: 0 <= k < i ==> s[k] != q
    ensures ArcStart(less, s, q) == i
  {
    var p := x => x == q;
    var m := FirstWhere(s, p);
    assert p(s[i]) && p(s[m]);
  }

  lemma ArcStartOfIndex<T(!new)>(less: (T, T) -> bool, s: seq<T>, i: nat)
    requires StrictWeak(less) && Ascending(less, s) && i < |s|
    ensures ArcStart(less, s, s[i]) == i
  {
    forall k | 0 <= k < i ensures s[k] != s[i] {
      IndexOrder(less, s, k, i);
    }
    ArcStartOfListed(less, s, s[i], i);
  }

  lemma ArcStartOfMember<T>(less: (T, T) -> bool, s: seq<T>, q: T)
    requires q in s
    ensures s[ArcStart(less, s, q)] == q
  {
    var i :| 0 <= i < |s| && s[i] == q;
    var p := x => x == q;
    assert p(s[i]);
    assert FirstWhere(s, p) <= i;
  }

  /** `q` lies strictly inside the arc that starts at `i`; the last arc wraps round. */
  ghost predicate InArc<T>(less: (T, T) -> bool, s: seq<T>, i: nat, q: T)
    requires i < |s|
  {
    if i + 1 == |s| then less(s[i], q) || less(q, s[0]) else less(s[i], q) && less(q, s[i + 1])
  }

  /** A point that is comparable to every element lies in exactly one arc. */
  lemma OnlyOneArc<T(!new)>(less: (T, T) -> bool, s: seq<T>, q: T)
    requires StrictWeak(less) && Ascending(less, s) && s != []
    requires forall x :: x in s ==> less(x, q) || less(q, x)
    ensures forall j :: 0 <= j < |s| ==> (InArc(less, s, j, q) <==> j == ArcStart(less, s, q))
  {
    var p := x => less(q, x);
    var g := FirstWhere(s, p);
    forall i | 0 <= i < |s| ensures less(s[i], q) <==> i < g {
      assert less(s[i], q) || less(q, s[i]);
      if i < g { assert !p(s[i]); }
      if g < i { assert less(s[g], s[i]) && p(s[g]); }
    }
    assert q !in s;
    ArcStartByScan(less, s, q, g);
    forall j | 0 <= j < |s| ensures InArc(less, s, j, q) <==> j == ArcStart(less, s, q) {
      assert less(s[j], q) || less(q, s[j]);
      assert less(s[0], q) || less(q, s[0]);
      if j + 1 < |s| { assert less(s[j + 1], q) || less(q, s[j + 1]); }
    }
  }

  /** Where the first element precedes the point, the wrapping case disappears: the point lies
      after its arc's start and before its end, unless the end is the first element. */
  lemma ArcAfterFirst<T(!new)>(less: (T, T) -> bool, s: seq<T>, q: T)
    requires StrictWeak(less) && Ascending(less, s) && s != []
    requires forall x :: x in s ==> less(x, q) || less(q, x)
    requires less(s[0], q)
    ensures var i := ArcStart(less, s, q); var j := Succ(i, |s|);
            && less(s[i], q) && (j == 0 || less(q, s[j]))
  {
    OnlyOneArc(less, s, q);
    assert InArc(less, s, ArcStart(less, s, q), q);
  }

  /** No listed element lies inside an arc, the last one included. */
  lemma ArcIsEmpty<T(!new)>(less: (T, T) -> bool, s: seq<T>, i: nat, k: nat)
    requires StrictWeak(less) && Ascending(less, s) && i < |s| && k < |s|
    ensures !(less(s[i], s[k]) && (Succ(i, |s|) == 0 || less(s[k], s[Succ(i, |s|)])))
  {
    IndexOrder(less, s, i, k);
    IndexOrder(less, s, k, Succ(i, |s|));
  }

  lemma MemberNotInArc<T(!new)>(less: (T, T) -> bool, s: seq<T>, i: nat, x: T)
    requires StrictWeak(less) && Ascending(less, s) && i < |s| && x in s
    ensures !(less(s[i], x) && (Succ(i, |s|) == 0 || less(x, s[Succ(i, |s|)])))
  {
    var k :| 0 <= k < |s| && s[k] == x;
    ArcIsEmpty(less, s, i, k);
  }

  /** The far end of the arc of `x`. */
  function Next<T(==)>(less: (T, T) -> bool, s: seq<T>, x: T): T
    requires s != []
  {
    s[Succ(ArcStart(less, s, x), |s|)]
  }

  /** The `k`-th element met when following arcs from the first element. */
  function Walk<T(==)>(less: (T, T) -> bool, s: seq<T>, k: nat): T
    requires s != []
  {
    if k == 0 then s[0] else Next(less, s, Walk(less, s, k - 1))
  }

  /** Following the arcs meets the elements one after another ... */
  lemma {:induction false} WalkTo<T(!new)>(less: (T, T) -> bool, s: seq<T>, k: nat)
    requires StrictWeak(less) && Ascending(less, s) && s != [] && k <= |s|
    ensures Walk(less, s, k) == if k < |s| then s[k] else s[0]
  {
    if k > 0 {
      WalkTo(less, s, k - 1);
      forall i | 0 <= i < k - 1 ensures s[i] != s[k - 1] {
        IndexOrder(less, s, i, k - 1);
      }
      ArcStartOfListed(less, s, s[k - 1], k - 1);
    }
  }

  /** ... each exactly once, and closes the circle: the arcs form a single cycle. */
  lemma WalkIsOneCycle<T(!new)>(less: (T, T) -> bool, s: seq<T>)
    requires StrictWeak(less) && Ascending(less, s) && s != []
    ensures Walk(less, s, |s|) == Walk(less, s, 0)
    ensures forall a, b :: 0 <= a < b < |s| ==> Walk(less, s, a) != Walk(less, s, b)
    ensures forall i :: 0 <= i < |s| ==> Walk(less, s, i) == s[i]
  {
    WalkTo(less, s, |s|);
    forall a, b | 0 <= a < b < |s| ensures Walk(less, s, a) != Walk(less, s, b) {
      WalkTo(less, s, a);
      WalkTo(less, s, b);
      IndexOrder(less, s, a, b);
    }
    forall i | 0 <= i < |s| ensures Walk(less, s, i) == s[i] {
      WalkTo(less, s, i);
    }
  }

  function Map<T, U>(f: T -> U, s: seq<T>): (r: seq<U>)
    ensures |r| == |s| && forall i :: 0 <= i < |s| ==> r[i] == f(s[i])
  {
    seq(|s|, i requires 0 <= i < |s| => f(s[i]))
  }

  ghost predicate DistinctKeys<T, K>(key: T -> K, s: seq<T>) {
    Distinct(s) && forall x, y :: x in s && y in s && x != y ==> key(x) != key(y)
  }

  lemma SharedKey<T, K>(key: T -> K, s: seq<T>, i: nat, j: nat)
    requires i < j < |s| && key(s[i]) == key(s[j])
    ensures !DistinctKeys(key, s)
  {
    assert s[i] in s && s[j] in s;
  }

  /** The listed keys are the keys of the elements. */
  lemma MapSortMembers<T, K>(less: (T, T) -> bool, key: T -> K, s: seq<T>)
    ensures forall n :: n in s ==> key(n) in Map(key, Sort(less, s))
    ensures forall k :: k in Map(key, Sort(less, s)) ==> exists n :: n in s && key(n) == k
  {
    var r := Sort(less, s);
    var c := Map(key, r);
    forall n | n in s ensures key(n) in c {
      assert n in multiset(r);
      var i :| 0 <= i < |r| && r[i] == n;
      assert c[i] == key(n);
    }
    forall k | k in c ensures exists n :: n in s && key(n) == k {
      var i :| 0 <= i < |c| && c[i] == k;
      assert r[i] in multiset(s);
    }
  }

  /** Sorting and then taking keys gives an ascending list exactly when the keys are distinct. */
  lemma SortedKeysAscend<T(!new)>(less: (T, T) -> bool, key: T -> T, s: seq<T>)
    requires StrictWeak(less)
    requires forall x, y :: x in s && y in s ==> (less(key(x), key(y)) <==> less(x, y))
    requires forall x, y :: x in s && y in s ==> key(x) == key(y) || less(x, y) || less(y, x)
    ensures Ascending(less, Map(key, Sort(less, s))) <==> DistinctKeys(key, s)
  {
    var r := Sort(less, s);
    SortSorted(less, s);
    SortMembers(less, s);
    if DistinctKeys(key, s) {
      PermutationDistinct(s, r);
      forall i, j | 0 <= i < j < |r| ensures less(key(r[i]), key(r[j])) {
        assert r[i] in s && r[j] in s && r[i] != r[j];
      }
    }
    if Ascending(less, Map(key, r)) {
      AscendingKeysDistinct(less, key, r);
      PermutationDistinct(r, s);
    }
  }

  lemma AscendingKeysDistinct<T(!new)>(less: (T, T) -> bool, key: T -> T, r: seq<T>)
    requires StrictWeak(less) && Ascending(less, Map(key, r))
    ensures DistinctKeys(key, r)
  {
    forall i, j | 0 <= i < j < |r| ensures r[i] != r[j] && key(r[i]) != key(r[j]) {
      IndexOrder(less, Map(key, r), i, j);
    }
  }

  /** If moreover one element's key precedes all other keys, it comes first. */
  lemma SortedKeysStart<T(!new)>(less: (T, T) -> bool, key: T -> T, s: seq<T>, first: T)
    requires StrictWeak(less) && Ascending(less, Map(key, Sort(less, s)))
    requires first in s && forall x :: x in s && x != first ==> less(key(first), key(x))
    ensures Map(key, Sort(less, s))[0] == key(first)
  {
    var r := Sort(less, s);
    var c := Map(key, r);
    assert first in multiset(r);
    var i :| 0 <= i < |r| && r[i] == first;
    assert r[0] in multiset(s);
    IndexOrder(less, c, i, 0);
  }
}
