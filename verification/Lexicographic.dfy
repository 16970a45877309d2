/** Lexicographic order over any alphabet, and on strings. */
module Lexicographic {
  import opened Sorting

  predicate LexLess<T(==)>(lt: (T, T) -> bool, a: seq<T>, b: seq<T>) {
    if b == [] then false
    else if a == [] then true
    else if a[0] == b[0] then LexLess(lt, a[1..], b[1..])
    else lt(a[0], b[0])
  }

  /** Past a common prefix of length `k` the next element decides; a missing element sorts first. */
  lemma {:induction false} LexAt<T>(lt: (T, T) -> bool, a: seq<T>, b: seq<T>, k: nat)
    requires k <= |a| && k <= |b| && a[..k] == b[..k]
    ensures k == |b| ==> !LexLess(lt, a, b)
    ensures k == |a| < |b| ==> LexLess(lt, a, b)
    ensures k < |a| && k < |b| && a[k] != b[k] ==> LexLess(lt, a, b) == lt(a[k], b[k])
  {
    if k > 0 {
      assert a[0] == a[..k][0] == b[..k][0] == b[0];
      assert a[1..][..k - 1] == a[..k][1..] == b[..k][1..] == b[1..][..k - 1];
      LexAt(lt, a[1..], b[1..], k - 1);
    }
  }

  lemma {:induction false} LexTrichotomy<T(!new)>(lt: (T, T) -> bool, a: seq<T>, b: seq<T>)
    requires StrictTotal(lt)
    ensures a == b || LexLess(lt, a, b) || LexLess(lt, b, a)
    ensures !(LexLess(lt, a, b) && LexLess(lt, b, a))
    ensures a == b ==> !LexLess(lt, a, b)
  {
    if a != [] && b != [] && a[0] == b[0] {
      LexTrichotomy(lt, a[1..], b[1..]);
      assert a == [a[0]] + a[1..] && b == [b[0]] + b[1..];
    }
  }

  lemma {:induction false} LexTransitive<T(!new)>(lt: (T, T) -> bool, a: seq<T>, b: seq<T>, c: seq<T>)
    requires StrictTotal(lt) && LexLess(lt, a, b) && LexLess(lt, b, c)
    ensures LexLess(lt, a, c)
  {
    if a != [] && a[0] == b[0] == c[0] {
      LexTransitive(lt, a[1..], b[1..], c[1..]);
    }
  }

  predicate CharLess(x: char, y: char) {
    x < y
  }

  /** Go's `<` on strings. */
  predicate StringLess(a: string, b: string) {
    LexLess(CharLess, a, b)
  }

  lemma StringOrder()
    ensures StrictTotal(StringLess)
  {
    assert StrictTotal(CharLess);
    forall a, b ensures a == b || StringLess(a, b) || StringLess(b, a) {
      LexTrichotomy(CharLess, a, b);
    }
    forall a ensures !StringLess(a, a) {
      LexTrichotomy(CharLess, a, a);
    }
    forall a, b, c | StringLess(a, b) && StringLess(b, c) ensures StringLess(a, c) {
      LexTransitive(CharLess, a, b, c);
    }
  }

  lemma StringWeak()
    ensures StrictWeak(StringLess)
  {
    StringOrder();
    var less := StringLess;
    assert StrictTotal(less);
    TotalIsWeak(less);
  }
}
