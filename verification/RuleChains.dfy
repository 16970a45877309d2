/** Chains of rules numbered from 1, for rules of any type: deletion of the rules a search finds,
    insertion behind the last one found, and the order of three kinds of rules. */
module RuleChains {
  import opened Text

  /** Which numbered deletions are refused. */
  type Refusals = nat -> bool

  /** The chain without the rules found, except those whose deletion is refused; `from` rules
      precede the chain in the listing. */
  function Survivors<T>(chain: seq<T>, found: T -> bool, refused: Refusals, from: nat): seq<T> {
    if chain == [] then []
    else (if found(chain[0]) && !refused(from + 1) then [] else [chain[0]])
         + Survivors(chain[1..], found, refused, from + 1)
  }

  lemma {:induction false} SurvivorsConcat<T>(a: seq<T>, b: seq<T>, found: T -> bool, refused: Refusals, from: nat)
    ensures Survivors(a + b, found, refused, from)
            == Survivors(a, found, refused, from) + Survivors(b, found, refused, from + |a|)
  {
    if a == [] {
      assert a + b == b;
    } else {
      assert (a + b)[1..] == a[1..] + b && (a + b)[0] == a[0];
      SurvivorsConcat(a[1..], b, found, refused, from + 1);
      var head := if found(a[0]) && !refused(from + 1) then [] else [a[0]];
      var x, y := Survivors(a[1..], found, refused, from + 1), Survivors(b, found, refused, from + |a|);
      assert head + (x + y) == (head + x) + y;
    }
  }

  /** The chain without the rules found. */
  function Without<T>(chain: seq<T>, found: T -> bool): seq<T> {
    if chain == [] then [] else (if found(chain[0]) then [] else [chain[0]]) + Without(chain[1..], found)
  }

  lemma {:induction false} NoneRefused<T>(chain: seq<T>, found: T -> bool, refused: Refusals, from: nat)
    requires forall n :: !refused(n)
    ensures Survivors(chain, found, refused, from) == Without(chain, found)
  {
    if chain != [] {
      NoneRefused(chain[1..], found, refused, from + 1);
    }
  }

  lemma WithoutConcat<T>(a: seq<T>, b: seq<T>, found: T -> bool)
    ensures Without(a + b, found) == Without(a, found) + Without(b, found)
  {
    var none: Refusals := n => false;
    SurvivorsConcat(a, b, found, none, 0);
    NoneRefused(a + b, found, none, 0);
    NoneRefused(a, found, none, 0);
    NoneRefused(b, found, none, |a|);
  }

  /** Rules that were not found are all there; nothing else comes in. */
  lemma {:induction false} SurvivorsMembers<T>(chain: seq<T>, found: T -> bool, refused: Refusals, from: nat)
    ensures forall r :: r in Survivors(chain, found, refused, from) ==> r in chain
    ensures forall r :: r in chain && !found(r) ==> r in Survivors(chain, found, refused, from)
  {
    if chain != [] {
      SurvivorsMembers(chain[1..], found, refused, from + 1);
      assert chain == [chain[0]] + chain[1..];
    }
  }

  lemma {:induction false} WithoutAll<T>(chain: seq<T>, found: T -> bool)
    ensures (forall r :: r in chain ==> !found(r)) ==> Without(chain, found) == chain
    ensures (forall r :: r in chain ==> found(r)) ==> Without(chain, found) == []
    ensures forall r :: r in Without(chain, found) <==> r in chain && !found(r)
  {
    if chain != [] {
      WithoutAll(chain[1..], found);
      assert chain == [chain[0]] + chain[1..];
    }
  }

  /** Position of the last rule found, 0 if there is none. */
  function LastPosition<T>(chain: seq<T>, found: T -> bool): (p: nat)
    ensures p <= |chain|
    ensures p > 0 ==> found(chain[p - 1])
    ensures forall i :: p <= i < |chain| ==> !found(chain[i])
  {
    if chain == [] then 0
    else if found(chain[|chain| - 1]) then |chain|
    else LastPosition(chain[..|chain| - 1], found)
  }

  lemma LastPositionIs<T>(chain: seq<T>, found: T -> bool, p: nat)
    requires p <= |chain| && (p > 0 ==> found(chain[p - 1]))
    requires forall i :: p <= i < |chain| ==> !found(chain[i])
    ensures LastPosition(chain, found) == p
  {
    var q := LastPosition(chain, found);
    assert q > 0 ==> found(chain[q - 1]);
  }

  // ---------- Deletion by number

  /** `-D INPUT n` */
  function Removed<T>(chain: seq<T>, num: nat): seq<T>
    requires 0 < num <= |chain|
  {
    chain[..num - 1] + chain[num..]
  }

  /** Numbers of the first `p` listing lines that were found, ascending. */
  function Numbers<T>(chain: seq<T>, found: T -> bool, p: nat): seq<nat>
    requires p <= |chain|
  {
    if p == 0 then [] else Numbers(chain, found, p - 1) + if found(chain[p - 1]) then [p] else []
  }

  /** The last number, and what lies above and below it. */
  lemma {:induction false} LastNumber<T>(chain: seq<T>, found: T -> bool, p: nat)
    requires p <= |chain|
    ensures var nums := Numbers(chain, found, p);
            if nums == [] then forall i :: 0 <= i < p ==> !found(chain[i])
            else
              var num := nums[|nums| - 1];
              && 0 < num <= p && found(chain[num - 1]) && (forall i :: num <= i < p ==> !found(chain[i]))
              && nums[..|nums| - 1] == Numbers(chain, found, num - 1)
  {
    if p > 0 {
      LastNumber(chain, found, p - 1);
    }
  }

  method MatchingNumbers<T>(chain: seq<T>, found: T -> bool) returns (nums: seq<nat>)
    ensures nums == Numbers(chain, found, |chain|)
  {
    nums := [];
    for i := 0 to |chain|
      invariant nums == Numbers(chain, found, i)
    {
      if found(chain[i]) {
        nums := nums + [i + 1];
      }
    }
  }

  /** The chain when the deletions from rule `p + 1` on are done. */
  function Done<T>(chain: seq<T>, found: T -> bool, refused: Refusals, p: nat): seq<T>
    requires p <= |chain|
  {
    chain[..p] + Survivors(chain[p..], found, refused, p)
  }

  /** One rule further down. */
  lemma DoneStep<T>(chain: seq<T>, found: T -> bool, refused: Refusals, p: nat)
    requires 0 < p <= |chain|
    ensures p <= |Done(chain, found, refused, p)|
    ensures Done(chain, found, refused, p - 1)
            == if found(chain[p - 1]) && !refused(p) then Removed(Done(chain, found, refused, p), p)
               else Done(chain, found, refused, p)
  {
    var rest := Survivors(chain[p..], found, refused, p);
    var c := chain[p - 1];
    assert chain[p - 1..][1..] == chain[p..];
    assert chain[..p] == chain[..p - 1] + [c];
    assert Done(chain, found, refused, p)[p..] == rest;
    assert Done(chain, found, refused, p)[..p - 1] == chain[..p - 1];
    assert chain[..p - 1] + ([c] + rest) == chain[..p] + rest;
    assert chain[..p - 1] + ([] + rest) == chain[..p - 1] + rest;
  }

  lemma {:induction false} DoneUnfound<T>(chain: seq<T>, found: T -> bool, refused: Refusals, low: nat, p: nat)
    requires low <= p <= |chain| && forall i :: low <= i < p ==> !found(chain[i])
    ensures Done(chain, found, refused, p) == Done(chain, found, refused, low)
    decreases p
  {
    if low < p {
      DoneStep(chain, found, refused, p);
      DoneUnfound(chain, found, refused, low, p - 1);
    }
  }

  lemma DoneEnds<T>(chain: seq<T>, found: T -> bool, refused: Refusals)
    ensures Done(chain, found, refused, |chain|) == chain
    ensures Done(chain, found, refused, 0) == Survivors(chain, found, refused, 0)
  {
  }

  /** Deletion by comment: the listing is taken once and its numbers are deleted highest first, so
      each still names the rule it named in the listing. */
  method DeleteFound<T>(chain: seq<T>, found: T -> bool, refused: Refusals) returns (after: seq<T>)
    ensures after == Survivors(chain, found, refused, 0)
  {
    var nums := MatchingNumbers(chain, found);
    after := chain;
    ghost var p := |chain|;
    DoneEnds(chain, found, refused);
    while nums != []
      invariant 0 <= p <= |chain| && nums == Numbers(chain, found, p) && after == Done(chain, found, refused, p)
      decreases |nums|
    {
      var num := nums[|nums| - 1];
      LastNumber(chain, found, p);
      DoneUnfound(chain, found, refused, num, p);
      DoneStep(chain, found, refused, num);
      if !refused(num) {
        after := Removed(after, num);
      }
      nums, p := nums[..|nums| - 1], num - 1;
    }
    LastNumber(chain, found, p);
    DoneUnfound(chain, found, refused, 0, p);
  }

  /** Highest number of a listing line that was found, 0 if none was. */
  method FindLast<T>(chain: seq<T>, found: T -> bool) returns (maxNum: nat)
    ensures maxNum == LastPosition(chain, found)
  {
    maxNum := 0;
    for i := 0 to |chain|
      invariant maxNum <= i && (maxNum > 0 ==> found(chain[maxNum - 1]))
      invariant forall k :: maxNum <= k < i ==> !found(chain[k])
    {
      if found(chain[i]) {
        if i + 1 > maxNum {
          maxNum := i + 1;
        }
      }
    }
    LastPositionIs(chain, found, maxNum);
  }

  // ---------- Insertion by number

  /** `-I INPUT n`: refused by iptables beyond one past the end; position 0 means the top. */
  function Inserted<T>(chain: seq<T>, position: nat, r: T): Option<seq<T>> {
    var k := if position == 0 then 0 else position - 1;
    if k <= |chain| then Some(chain[..k] + [r] + chain[k..]) else None
  }

  /** The first `i` rules inserted one after another from position `at` on. */
  function InsertedFrom<T>(chain: seq<T>, at: nat, rules: seq<T>, i: nat): Option<seq<T>>
    requires i <= |rules| && at > 0
  {
    if i == 0 then Some(chain)
    else
      match InsertedFrom(chain, at, rules, i - 1)
      case None => None
      case Some(c) => Inserted(c, at + i - 1, rules[i - 1])
  }

  lemma InsertBehind<T>(a: seq<T>, b: seq<T>, c: seq<T>, r: T)
    ensures Inserted(a + b + c, |a| + 1 + |b|, r) == Some(a + (b + [r]) + c)
  {
    var n := |a| + |b|;
    assert (a + b + c)[..n] == a + b && (a + b + c)[n..] == c;
    assert a + b + [r] + c == a + (b + [r]) + c;
  }

  /** Every position used exists, and the rules end up in order behind the first `k`. */
  lemma {:induction false} InsertedFromIs<T>(chain: seq<T>, k: nat, rules: seq<T>, i: nat)
    requires k <= |chain| && i <= |rules|
    ensures InsertedFrom(chain, k + 1, rules, i) == Some(chain[..k] + rules[..i] + chain[k..])
  {
    if i == 0 {
      assert chain[..k] + rules[..0] + chain[k..] == chain;
    } else {
      InsertedFromIs(chain, k, rules, i - 1);
      InsertBehind(chain[..k], rules[..i - 1], chain[k..], rules[i - 1]);
      assert rules[..i - 1] + [rules[i - 1]] == rules[..i];
    }
  }

  /** Inserts rules at rising positions until the kernel refuses one; the first position is the
      one behind the first `at - 1` rules. */
  method InsertMany<T>(chain: seq<T>, at: nat, rules: seq<T>, budget: nat) returns (after: seq<T>, ok: bool)
    requires 0 < at <= |chain| + 1
    ensures ok == (budget >= |rules|)
    ensures InsertedFrom(chain, at, rules, if ok then |rules| else budget) == Some(after)
  {
    after := chain;
    for i := 0 to |rules|
      invariant i <= budget && InsertedFrom(chain, at, rules, i) == Some(after)
    {
      InsertedFromIs(chain, at - 1, rules, i + 1);
      var next := Inserted(after, at + i, rules[i]);
      if budget == i || next == None {
        return after, false;
      }
      after := next.value;
    }
    return after, true;
  }

  function Take<T>(rules: seq<T>, n: nat): (r: seq<T>)
    ensures |r| == if n < |rules| then n else |rules|
    ensures r <= rules
  {
    if n < |rules| then rules[..n] else rules
  }

  /** The chain after the first `budget` of these additions: `behind` goes directly behind the last
      rule found (or to the top), then `last` to the end. */
  function Build<T>(chain: seq<T>, found: T -> bool, behind: seq<T>, last: seq<T>, budget: nat): seq<T> {
    var k := LastPosition(chain, found);
    chain[..k] + Take(behind, budget) + chain[k..]
    + Take(last, if budget < |behind| then 0 else budget - |behind|)
  }

  lemma BuildMembers<T>(chain: seq<T>, found: T -> bool, behind: seq<T>, last: seq<T>, budget: nat, r: T)
    ensures r in chain ==> r in Build(chain, found, behind, last, budget)
    ensures r in Build(chain, found, behind, last, budget) ==> r in chain || r in behind || r in last
  {
    var k := LastPosition(chain, found);
    assert chain == chain[..k] + chain[k..];
  }

  // ---------- Three kinds in order

  datatype Kind = Ban | Whitelist | Limit | Unmanaged

  predicate MayPrecede(a: Kind, b: Kind) {
    && (a == Limit ==> b != Ban && b != Whitelist)
    && (a == Whitelist ==> b != Ban)
  }

  /** All bans before all whitelist rules before all limits; other rules anywhere. */
  ghost predicate Ordered<T>(chain: seq<T>, kind: T -> Kind) {
    forall i, j :: 0 <= i < j < |chain| ==> MayPrecede(kind(chain[i]), kind(chain[j]))
  }

  lemma OrderedConcat<T>(a: seq<T>, b: seq<T>, kind: T -> Kind)
    requires Ordered(a, kind) && Ordered(b, kind)
    requires forall x, y :: x in a && y in b ==> MayPrecede(kind(x), kind(y))
    ensures Ordered(a + b, kind)
  {
    forall i, j | 0 <= i < j < |a + b| ensures MayPrecede(kind((a + b)[i]), kind((a + b)[j])) {
      if i < |a| && j >= |a| {
        assert a[i] in a && b[j - |a|] in b;
      }
    }
  }

  lemma OrderedSplit<T>(chain: seq<T>, kind: T -> Kind, k: nat)
    requires Ordered(chain, kind) && k <= |chain|
    ensures Ordered(chain[..k], kind) && Ordered(chain[k..], kind)
    ensures forall x, y :: x in chain[..k] && y in chain[k..] ==> MayPrecede(kind(x), kind(y))
  {
  }

  /** Leaving rules out keeps the order. */
  lemma {:induction false} SurvivorsOrdered<T>(chain: seq<T>, kind: T -> Kind, found: T -> bool, refused: Refusals,
                                               from: nat)
    requires Ordered(chain, kind)
    ensures Ordered(Survivors(chain, found, refused, from), kind)
  {
    if chain != [] {
      var rest := Survivors(chain[1..], found, refused, from + 1);
      OrderedSplit(chain, kind, 1);
      SurvivorsOrdered(chain[1..], kind, found, refused, from + 1);
      SurvivorsMembers(chain[1..], found, refused, from + 1);
      assert chain[..1] == [chain[0]];
      OrderedConcat([chain[0]], rest, kind);
      assert [] + rest == rest;
    }
  }

  /** A rule that may stand anywhere, anywhere; a ban at the top. */
  lemma InsertOrdered<T>(chain: seq<T>, kind: T -> Kind, k: nat, r: T)
    requires Ordered(chain, kind) && k <= |chain|
    requires kind(r) == Unmanaged || (kind(r) == Ban && k == 0)
    ensures Ordered(chain[..k] + [r] + chain[k..], kind)
  {
    OrderedSplit(chain, kind, k);
    OrderedConcat(chain[..k], [r], kind);
    OrderedConcat(chain[..k] + [r], chain[k..], kind);
  }

  /** Whatever part of the additions is carried out, the order is kept. */
  lemma BuildOrdered<T>(chain: seq<T>, kind: T -> Kind, found: T -> bool, behind: seq<T>, last: seq<T>, budget: nat)
    requires Ordered(chain, kind) && forall r :: r in chain ==> (found(r) <==> kind(r) == Ban)
    requires (forall r :: r in behind ==> kind(r) == Whitelist) && (forall r :: r in last ==> kind(r) == Limit)
    ensures Ordered(Build(chain, found, behind, last, budget), kind)
  {
    var k := LastPosition(chain, found);
    var b, l := Take(behind, budget), Take(last, if budget < |behind| then 0 else budget - |behind|);
    OrderedSplit(chain, kind, k);
    forall r | r in chain[..k] ensures kind(r) == Ban || kind(r) == Unmanaged {
      var i :| 0 <= i < k && chain[i] == r;
      assert chain[k - 1] in chain && found(chain[k - 1]);
    }
    forall r | r in chain[k..] ensures kind(r) != Ban {
      var i :| k <= i < |chain| && chain[i] == r;
      assert chain[i] in chain;
    }
    SameKind(behind, b, kind, Whitelist);
    SameKind(last, l, kind, Limit);
    OrderedConcat(chain[..k], b, kind);
    OrderedConcat(chain[..k] + b, chain[k..], kind);
    OrderedConcat(chain[..k] + b + chain[k..], l, kind);
  }

  lemma SameKind<T>(all: seq<T>, part: seq<T>, kind: T -> Kind, c: Kind)
    requires part <= all && forall r :: r in all ==> kind(r) == c
    ensures (forall r :: r in part ==> kind(r) == c) && Ordered(part, kind)
  {
    forall i | 0 <= i < |part| ensures kind(part[i]) == c {
      assert part[i] == all[i] && all[i] in all;
    }
  }

  // ---------- First match

  /** The first managed rule a packet meets, of those that match it. */
  function FirstManaged<T>(chain: seq<T>, kind: T -> Kind, hits: T -> bool): Option<T> {
    if chain == [] then None
    else if hits(chain[0]) && kind(chain[0]) != Unmanaged then Some(chain[0])
    else FirstManaged(chain[1..], kind, hits)
  }

  /** In an ordered chain a banned packet meets a ban first, and a whitelisted one never meets a
      limit first. */
  lemma {:induction false} FirstMatchRespectsOrder<T>(chain: seq<T>, kind: T -> Kind, hits: T -> bool, k: nat)
    requires Ordered(chain, kind) && k < |chain| && hits(chain[k]) && kind(chain[k]) != Unmanaged
    ensures var first := FirstManaged(chain, kind, hits);
            && first.Some? && hits(first.value)
            && (kind(chain[k]) == Ban ==> kind(first.value) == Ban)
            && (kind(chain[k]) == Whitelist ==> kind(first.value) == Ban || kind(first.value) == Whitelist)
  {
    if hits(chain[0]) && kind(chain[0]) != Unmanaged {
      assert k > 0 ==> MayPrecede(kind(chain[0]), kind(chain[k]));
    } else {
      FirstMatchRespectsOrder(chain[1..], kind, hits, k - 1);
    }
  }

  // ---------- Undoing an application

  /** Deleting what an application added undoes it, however much of it was carried out. */
  lemma BuildUndone<T>(base: seq<T>, ban: T -> bool, mine: T -> bool, behind: seq<T>, last: seq<T>, budget: nat)
    requires forall r :: r in behind ==> mine(r)
    requires forall r :: r in last ==> mine(r)
    ensures Without(Build(base, ban, behind, last, budget), mine) == Without(base, mine)
  {
    var k := LastPosition(base, ban);
    var n := if budget < |behind| then 0 else budget - |behind|;
    TakeFound(behind, budget, mine);
    TakeFound(last, n, mine);
    WithoutMiddle(base[..k], Take(behind, budget), base[k..], Take(last, n), mine);
    assert base[..k] + base[k..] == base;
  }

  lemma WithoutMiddle<T>(a: seq<T>, b: seq<T>, c: seq<T>, d: seq<T>, found: T -> bool)
    requires Without(b, found) == [] && Without(d, found) == []
    ensures Without(a + b + c + d, found) == Without(a + c, found)
  {
    WithoutFour(a, b, c, d, found);
    WithoutConcat(a, c, found);
    assert Without(a, found) + [] + Without(c, found) + [] == Without(a, found) + Without(c, found);
  }

  lemma WithoutFour<T>(a: seq<T>, b: seq<T>, c: seq<T>, d: seq<T>, found: T -> bool)
    ensures Without(a + b + c + d, found)
            == Without(a, found) + Without(b, found) + Without(c, found) + Without(d, found)
  {
    WithoutConcat(a + b + c, d, found);
    WithoutConcat(a + b, c, found);
    WithoutConcat(a, b, found);
  }

  lemma TakeFound<T>(all: seq<T>, n: nat, mine: T -> bool)
    requires forall r :: r in all ==> mine(r)
    ensures Without(Take(all, n), mine) == []
  {
    WithoutAll(Take(all, n), mine);
  }

  /** After an application the last ban is where it was: the additions start right behind it. */
  lemma BuildKeepsLastBan<T>(base: seq<T>, ban: T -> bool, behind: seq<T>, last: seq<T>, budget: nat)
    requires forall r :: r in behind + last ==> !ban(r)
    ensures LastPosition(Build(base, ban, behind, last, budget), ban) == LastPosition(base, ban)
  {
    var k := LastPosition(base, ban);
    var b, l := Take(behind, budget), Take(last, if budget < |behind| then 0 else budget - |behind|);
    var once := Build(base, ban, behind, last, budget);
    forall i | k <= i < |once| ensures !ban(once[i]) {
      if i < k + |b| {
        assert once[i] == behind[i - k] && behind[i - k] in behind + last;
      } else if i < |base| + |b| {
        assert once[i] == base[i - |b|];
      } else {
        assert once[i] == last[i - |base| - |b|] && last[i - |base| - |b|] in behind + last;
      }
    }
    LastPositionIs(once, ban, k);
  }

  // ---------- Counting

  function CountIf<T>(s: seq<T>, p: T -> bool): nat {
    if s == [] then 0 else (if p(s[0]) then 1 else 0) + CountIf(s[1..], p)
  }

  lemma {:induction false} CountConcat<T>(a: seq<T>, b: seq<T>, p: T -> bool)
    ensures CountIf(a + b, p) == CountIf(a, p) + CountIf(b, p)
  {
    if a == [] {
      assert a + b == b;
    } else {
      assert (a + b)[1..] == a[1..] + b;
      CountConcat(a[1..], b, p);
    }
  }

  lemma CountWithInserts<T>(base: seq<T>, k: nat, a: seq<T>, l: seq<T>, p: T -> bool)
    requires k <= |base|
    ensures CountIf(base[..k] + a + base[k..] + l, p) == CountIf(base, p) + CountIf(a, p) + CountIf(l, p)
  {
    CountConcat(base[..k] + a + base[k..], l, p);
    CountConcat(base[..k] + a, base[k..], p);
    CountConcat(base[..k], a, p);
    CountConcat(base[..k], base[k..], p);
    assert base[..k] + base[k..] == base;
  }

  lemma {:induction false} CountAll<T>(s: seq<T>, p: T -> bool)
    ensures (forall r :: r in s ==> p(r)) ==> CountIf(s, p) == |s|
    ensures (forall r :: r in s ==> !p(r)) ==> CountIf(s, p) == 0
  {
    if s != [] {
      assert s[0] in s;
      CountAll(s[1..], p);
    }
  }
}
