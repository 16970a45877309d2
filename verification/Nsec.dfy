/** Authenticated denial of existence: the NSEC chain of a zone and the span that is returned
    for a query (sections 4.1.1 and 6.1 of RFC 4034, section 3.1.3 of RFC 4035). */
module Nsec {
  import opened Text
  import opened Sorting
  import opened DnsNames
  import opened Circle

  // ---------- The chain

  /** The canonical names of a zone in strictly ascending canonical order. */
  ghost predicate Chain(names: seq<string>) {
    names != [] && Ascending(NameLess, names)
  }

  function CanonicalNames(names: seq<string>): seq<string> {
    Map(CanonicalName, names)
  }

  method FindNsecSpan(names: seq<string>, qname: string)
    returns (owner: string, next: string, present: bool)
    ensures names == [] ==> owner == "" && next == "" && !present
    ensures names != [] ==>
              var c, q := CanonicalNames(names), CanonicalName(qname);
              var i := ArcStart(NameLess, c, q);
              && owner == TrimSuffix(c[i], ".")
              && next == TrimSuffix(c[Succ(i, |c|)], ".")
              && present == (q in c)
  {
    if |names| == 0 {
      return "", "", false;
    }
    var canonicalNames := CanonicalNames(names);
    var ownerIndex, nextIndex, found := FindArc(NameLess, canonicalNames, CanonicalName(qname));
    return TrimSuffix(canonicalNames[ownerIndex], "."), TrimSuffix(canonicalNames[nextIndex], "."), found;
  }

  // ---------- The names of a zone

  /** `strings.TrimSuffix(strings.ToLower(strings.TrimSpace(name)), ".")` */
  function NormalizeName(name: string): string {
    TrimSuffix(ToLower(TrimSpace(name)), ".")
  }

  /** The case of the letters and one final dot do not matter. */
  lemma NormalizedAlike(a: string, b: string)
    requires ToLower(a) == ToLower(b) && Trimmed(a) && Trimmed(b) && !HasSuffix(ToLower(a), ".")
    ensures NormalizeName(a) == NormalizeName(b) == ToLower(a)
    ensures a != "" ==> NormalizeName(a + ".") == ToLower(a)
  {
    TrimSpaceTrimmed(a);
    TrimSpaceTrimmed(b);
    TrimSpaceTrimmed(a + ".");
    assert ToLower(a + ".") == ToLower(a) + ".";
    assert (ToLower(a) + ".")[..|a|] == ToLower(a);
  }

  /** Adds the names that are not blank and not there yet, in order. */
  function AddNames(names: seq<string>, more: seq<string>): (r: seq<string>)
    ensures names <= r
    ensures Distinct(names) ==> Distinct(r)
    ensures forall n :: n in r <==> n in names || (n != "" && n in more)
    decreases |more|
  {
    if more == [] then names
    else
      assert more == [more[0]] + more[1..];
      AddNames(if more[0] == "" || more[0] in names then names else names + [more[0]], more[1..])
  }

  /** The zone's apex followed by every further record name once; a failed query leaves the apex. */
  function ZoneNames(zone: string, rows: Option<seq<string>>): (names: seq<string>)
    ensures Distinct(names)
  {
    if zone == "" then []
    else
      match rows
      case None => [NormalizeName(zone)]
      case Some(rs) => AddNames([NormalizeName(zone)], Map(NormalizeName, rs))
  }

  method QueryZoneNames(zone: string, rows: Option<seq<string>>) returns (names: seq<string>)
    ensures names == ZoneNames(zone, rows)
  {
    if zone == "" {
      return [];
    }
    names := [NormalizeName(zone)];
    if rows.None? {
      return;
    }
    var seen := {names[0]};
    for i := 0 to |rows.value|
      invariant forall n :: n in seen <==> n in names
      invariant ZoneNames(zone, rows) == AddNames(names, Map(NormalizeName, rows.value)[i..])
    {
      var name := NormalizeName(rows.value[i]);
      if name != "" && name !in seen {
        seen := seen + {name};
        names := names + [name];
      }
    }
  }

  /** A name whose escapes are complete, so that canonicalising it twice changes nothing. */
  predicate Settled(name: string) {
    CanonicalName(CanonicalName(name)) == CanonicalName(name)
  }

  /** Two settled names compare as their canonical forms do. */
  lemma SettledLess(a: string, b: string)
    requires Settled(a) && Settled(b)
    ensures NameLess(CanonicalName(a), CanonicalName(b)) == NameLess(a, b)
    ensures CanonicalName(a) == CanonicalName(b) || NameLess(a, b) || NameLess(b, a)
  {
    NameTrichotomy(a, b);
    NameCongruent(a, CanonicalName(a), b);
    NameCongruent(b, CanonicalName(b), CanonicalName(a));
  }

  /** Sorting a zone's names gives a chain exactly when no two of them are one name to DNS. */
  lemma SortedNamesAreAChain(names: seq<string>)
    requires names != [] && forall n :: n in names ==> Settled(n)
    ensures Chain(CanonicalNames(Sort(NameLess, names))) <==> DistinctKeys(CanonicalName, names)
  {
    NameOrderIsWeak();
    forall x, y | x in names && y in names
      ensures NameLess(CanonicalName(x), CanonicalName(y)) == NameLess(x, y)
      ensures CanonicalName(x) == CanonicalName(y) || NameLess(x, y) || NameLess(y, x)
    {
      SettledLess(x, y);
    }
    SortedKeysAscend(NameLess, CanonicalName, names);
  }

  /** A name as records hold it: lower case, trimmed, without a final dot, escapes complete. */
  predicate WellFormed(name: string) {
    Plain(name) && Trimmed(name) && TrailingBackslashes(name) % 2 == 0
  }

  lemma WellFormedName(name: string)
    requires WellFormed(name)
    ensures NormalizeName(name) == name && Settled(name)
    ensures CanonicalName(name) == name + "." && CanonicalName(name + ".") == name + "."
    ensures TrimSuffix(name + ".", ".") == name
  {
    TrimSpaceTrimmed(name);
    BareOfPlain(name);
    assert (name + ".")[..|name|] == name;
    assert ToLower(name + ".") == name + ".";
  }

  lemma NormalizeDotted(name: string)
    requires WellFormed(name)
    ensures NormalizeName(name + ".. ") == name + "."
  {
    var dots := name + "..";
    TrimTail(dots, ' ');
    assert dots + [' '] == name + ".. ";
    assert ToLower(dots) == dots;
    assert dots[..|dots| - 1] == name + "." && dots[|dots| - 1..] == ".";
  }

  /** The collector compares strings, not names. A row with dots before a trailing space keeps one
      dot, so next to the plain row it is a second string and the same DNS name: no chain. */
  lemma TrailingDotBreaksTheChain(zone: string, name: string)
    requires WellFormed(zone) && WellFormed(name) && zone != name && zone != name + "."
    ensures var names := ZoneNames(zone, Some([name, name + ".. "]));
            && names == [zone, name, name + "."]
            && !DistinctKeys(CanonicalName, names)
  {
    DottedRowIsKept(zone, name);
    WellFormedName(name);
    SharedKey(CanonicalName, [zone, name, name + "."], 1, 2);
  }

  lemma DottedRowIsKept(zone: string, name: string)
    requires WellFormed(zone) && WellFormed(name) && zone != name && zone != name + "."
    ensures ZoneNames(zone, Some([name, name + ".. "])) == [zone, name, name + "."]
  {
    NormalizedRows(name);
    WellFormedName(zone);
    AddTwo([zone], name, name + ".");
    assert [zone] + [name, name + "."] == [zone, name, name + "."];
  }

  lemma NormalizedRows(name: string)
    requires WellFormed(name)
    ensures Map(NormalizeName, [name, name + ".. "]) == [name, name + "."]
  {
    WellFormedName(name);
    NormalizeDotted(name);
  }

  lemma AddTwo(names: seq<string>, a: string, b: string)
    requires a != b && a != "" && b != "" && a !in names && b !in names
    ensures AddNames(names, [a, b]) == names + [a, b]
  {
    assert [a, b][1..] == [b] && [b][1..] == [];
    assert AddNames(names + [a], [b]) == AddNames(names + [a] + [b], []);
    assert names + [a] + [b] == names + [a, b];
  }
}
