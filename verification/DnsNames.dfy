/** Canonical DNS names and their order (section 6.1 of RFC 4034). */
module DnsNames {
  import opened Text
  import opened Sorting
  import opened Lexicographic

  // ---------- Labels

  /** Byte-wise comparison of two labels: the sign tells their order. */
  method CompareDnsLabel(a: string, b: string) returns (sign: int)
    ensures -1 <= sign <= 1
    ensures sign < 0 <==> StringLess(a, b)
    ensures sign > 0 <==> StringLess(b, a)
    ensures sign == 0 <==> a == b
  {
    StringOrder();
    var limit := |a|;
    if |b| < limit {
      limit := |b|;
    }
    for i := 0 to limit
      invariant a[..i] == b[..i]
    {
      LexAt(CharLess, a, b, i);
      LexAt(CharLess, b, a, i);
      if a[i] != b[i] {
        return if a[i] < b[i] then -1 else 1;
      }
      assert a[..i + 1] == a[..i] + [a[i]] && b[..i + 1] == b[..i] + [b[i]];
    }
    LexAt(CharLess, a, b, limit);
    LexAt(CharLess, b, a, limit);
    assert |a| == |b| == limit ==> a == a[..limit] == b[..limit] == b;
    return if |a| < |b| then -1 else if |a| > |b| then 1 else 0;
  }

  // ---------- Names

  function TrailingBackslashes(s: string): nat {
    if s != [] && s[|s| - 1] == '\\' then 1 + TrailingBackslashes(s[..|s| - 1]) else 0
  }

  /** Ends in a dot that is not escaped. */
  predicate IsFqdn(s: string) {
    HasSuffix(s, ".") && TrailingBackslashes(s[..|s| - 1]) % 2 == 0
  }

  function Fqdn(s: string): string {
    if IsFqdn(s) then s else s + "."
  }

  function CanonicalName(s: string): string {
    ToLower(Fqdn(s))
  }

  lemma {:induction false} LowerKeepsBackslashes(s: string)
    ensures TrailingBackslashes(ToLower(s)) == TrailingBackslashes(s)
  {
    if s != [] && s[|s| - 1] == '\\' {
      LowerKeepsBackslashes(s[..|s| - 1]);
      assert ToLower(s)[..|s| - 1] == ToLower(s[..|s| - 1]);
    }
  }

  /** Case and a final dot do not matter. */
  lemma CaseAndDotAreIgnored(a: string, b: string)
    requires ToLower(a) == ToLower(b) && !IsFqdn(a)
    ensures CanonicalName(a) == CanonicalName(b) == ToLower(a) + "."
    ensures TrailingBackslashes(a) % 2 == 0 ==> CanonicalName(a + ".") == CanonicalName(a)
  {
    LowerFqdn(a);
    LowerFqdn(b);
    assert ToLower(a + ".") == ToLower(a) + "." == ToLower(b) + "." == ToLower(b + ".");
    assert (a + ".")[..|a|] == a;
  }

  lemma LowerFqdn(s: string)
    ensures IsFqdn(ToLower(s)) <==> IsFqdn(s)
  {
    if s != "" {
      assert ToLower(s)[..|s| - 1] == ToLower(s[..|s| - 1]);
      LowerKeepsBackslashes(s[..|s| - 1]);
      assert HasSuffix(s, ".") <==> s[|s| - 1] == '.';
      assert HasSuffix(ToLower(s), ".") <==> ToLower(s)[|s| - 1] == '.';
    }
  }

  /** A canonical name without the final dot it always has. */
  function Bare(s: string): string {
    TrimSuffix(CanonicalName(s), ".")
  }

  lemma CanonicalIsBareDot(s: string)
    ensures CanonicalName(s) == Bare(s) + "."
  {
    var f, c := Fqdn(s), CanonicalName(s);
    assert f[|f| - 1] == '.' by {
      if IsFqdn(s) { assert s[|s| - 1..][0] == '.'; }
    }
    assert c[|c| - 1] == '.';
    assert c == c[..|c| - 1] + [c[|c| - 1]];
    assert c[|c| - 1..] == ".";
  }

  /** A lower-case name without a final dot is its own bare canonical form. */
  lemma BareOfPlain(s: string)
    requires ToLower(s) == s && !HasSuffix(s, ".")
    ensures Bare(s) == s && CanonicalName(s) == s + "."
  {
    assert ToLower(s + ".") == s + ".";
    CanonicalIsBareDot(s);
  }

  function SplitDnsLabels(name: string): seq<string> {
    var trimmed := Bare(name);
    if trimmed == "" then [] else Split(trimmed, '.')
  }

  /** Labels determine the canonical name. */
  lemma LabelsInjective(a: string, b: string)
    ensures SplitDnsLabels(a) == SplitDnsLabels(b) <==> CanonicalName(a) == CanonicalName(b)
  {
    CanonicalIsBareDot(a);
    CanonicalIsBareDot(b);
    JoinSplit(Bare(a), '.');
    JoinSplit(Bare(b), '.');
    assert (Bare(a) + ".")[..|Bare(a)|] == Bare(a);
    assert (Bare(b) + ".")[..|Bare(b)|] == Bare(b);
  }

  function Reverse<T>(s: seq<T>): (r: seq<T>)
    ensures |r| == |s| && forall i :: 0 <= i < |s| ==> r[i] == s[|s| - 1 - i]
  {
    seq(|s|, i requires 0 <= i < |s| => s[|s| - 1 - i])
  }

  lemma ReverseInjective<T>(a: seq<T>, b: seq<T>)
    ensures Reverse(a) == Reverse(b) ==> a == b
  {
    if Reverse(a) == Reverse(b) {
      forall i | 0 <= i < |a| ensures a[i] == b[i] {
        assert Reverse(a)[|a| - 1 - i] == Reverse(b)[|a| - 1 - i];
      }
    }
  }

  /** Most significant label first, labels as left-justified octet strings. */
  predicate NameLess(a: string, b: string) {
    LexLess(StringLess, Reverse(SplitDnsLabels(a)), Reverse(SplitDnsLabels(b)))
  }

  method DnssecCanonicalLess(a: string, b: string) returns (less: bool)
    ensures less == NameLess(a, b)
  {
    less := LabelsLess(SplitDnsLabels(a), SplitDnsLabels(b));
  }

  /** Walks both label lists from their last labels backwards. */
  method LabelsLess(aLabels: seq<string>, bLabels: seq<string>) returns (less: bool)
    ensures less == LexLess(StringLess, Reverse(aLabels), Reverse(bLabels))
  {
    ghost var ra, rb := Reverse(aLabels), Reverse(bLabels);
    var ai, bi := |aLabels| - 1, |bLabels| - 1;
    ghost var k := 0;
    while ai >= 0 || bi >= 0
      invariant k <= |ra| && k <= |rb| && ra[..k] == rb[..k]
      invariant ai == |ra| - 1 - k && bi == |rb| - 1 - k
      decreases |ra| - k
    {
      LexAt(StringLess, ra, rb, k);
      if ai < 0 {
        return true;
      }
      if bi < 0 {
        return false;
      }
      if aLabels[ai] != bLabels[bi] {
        var sign := CompareDnsLabel(aLabels[ai], bLabels[bi]);
        return sign < 0;
      }
      assert ra[..k + 1] == ra[..k] + [ra[k]] && rb[..k + 1] == rb[..k] + [rb[k]];
      ai, bi, k := ai - 1, bi - 1, k + 1;
    }
    LexAt(StringLess, ra, rb, k);
    return false;
  }

  /** The order is total on canonical names: exactly one of before, after, same name. */
  lemma NameTrichotomy(a: string, b: string)
    ensures CanonicalName(a) == CanonicalName(b) || NameLess(a, b) || NameLess(b, a)
    ensures !(NameLess(a, b) && NameLess(b, a))
    ensures CanonicalName(a) == CanonicalName(b) ==> !NameLess(a, b)
  {
    StringOrder();
    LexTrichotomy(StringLess, Reverse(SplitDnsLabels(a)), Reverse(SplitDnsLabels(b)));
    LabelsInjective(a, b);
    ReverseInjective(SplitDnsLabels(a), SplitDnsLabels(b));
  }

  lemma NameTransitive(a: string, b: string, c: string)
    requires NameLess(a, b) && NameLess(b, c)
    ensures NameLess(a, c)
  {
    StringOrder();
    LexTransitive(StringLess, Reverse(SplitDnsLabels(a)), Reverse(SplitDnsLabels(b)), Reverse(SplitDnsLabels(c)));
  }

  /** Names with the same canonical form are interchangeable. */
  lemma NameCongruent(a: string, b: string, c: string)
    requires CanonicalName(a) == CanonicalName(b)
    ensures NameLess(a, c) == NameLess(b, c) && NameLess(c, a) == NameLess(c, b)
  {
    LabelsInjective(a, b);
  }

  /** The comparison is what the sorting library asks for. */
  lemma NameOrderIsWeak()
    ensures StrictWeak(NameLess)
  {
    forall a, b ensures NameLess(a, b) ==> !NameLess(b, a) {
      NameTrichotomy(a, b);
    }
    forall a, b, c | !NameLess(a, b) && !NameLess(b, c) ensures !NameLess(a, c) {
      NameTrichotomy(a, b);
      NameTrichotomy(b, c);
      NameTrichotomy(a, c);
      if NameLess(b, a) && NameLess(c, b) {
        NameTransitive(c, b, a);
      } else if CanonicalName(a) == CanonicalName(b) {
        NameCongruent(a, b, c);
      } else {
        NameCongruent(b, c, a);
      }
    }
  }

  /** `below` lies in the subtree under `above`, which is not itself. */
  predicate IsAncestor(above: string, below: string) {
    var a, b := SplitDnsLabels(above), SplitDnsLabels(below);
    |a| < |b| && b[|b| - |a|..] == a
  }

  /** Every ancestor precedes all of its descendants. */
  lemma AncestorFirst(above: string, below: string)
    requires IsAncestor(above, below)
    ensures NameLess(above, below)
  {
    var a, b := SplitDnsLabels(above), SplitDnsLabels(below);
    var ra, rb := Reverse(a), Reverse(b);
    forall i | 0 <= i < |ra| ensures ra[i] == rb[i] {
      assert b[|b| - |a|..][|a| - 1 - i] == a[|a| - 1 - i];
    }
    assert ra[..|ra|] == rb[..|ra|];
    LexAt(StringLess, ra, rb, |ra|);
  }

  /** The name is the zone apex or ends in a dot and the zone's name. */
  predicate InZone(zone: string, name: string) {
    name == zone || HasSuffix(name, "." + zone)
  }

  /** A lower-case name without a final dot, not the root. */
  predicate Plain(name: string) {
    name != "" && ToLower(name) == name && !HasSuffix(name, ".")
  }

  /** Textual membership in a zone is being the apex or a descendant of it. */
  lemma InZoneIsDescendant(zone: string, name: string)
    requires Plain(zone) && Plain(name) && InZone(zone, name)
    ensures name == zone || IsAncestor(zone, name)
  {
    if name != zone {
      BareOfPlain(zone);
      BareOfPlain(name);
      var head := name[..|name| - |zone| - 1];
      assert name == head + ['.'] + zone by {
        assert name == name[..|name| - |"." + zone|] + name[|name| - |"." + zone|..];
      }
      SplitConcat(head, '.', zone);
      var a, b := Split(zone, '.'), Split(name, '.');
      assert b == Split(head, '.') + a;
      assert b[|b| - |a|..] == a;
    }
  }
}
