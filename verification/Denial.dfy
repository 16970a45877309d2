/** What a zone's records say, what the DNS handler answers, and the NSEC record it sends when
    the answer is negative. */
module Denial {
  import opened Text
  import opened Sorting
  import opened DnsNames
  import opened Circle
  import opened Nsec

  // ---------- Types

  const TYPE_A: nat := 1
  const TYPE_NS: nat := 2
  const TYPE_CNAME: nat := 5
  const TYPE_SOA: nat := 6
  const TYPE_MX: nat := 15
  const TYPE_TXT: nat := 16
  const TYPE_AAAA: nat := 28
  const TYPE_DS: nat := 43
  const TYPE_RRSIG: nat := 46
  const TYPE_NSEC: nat := 47
  const TYPE_DNSKEY: nat := 48
  const TYPE_TLSA: nat := 52
  const TYPE_CAA: nat := 257

  /** The types a user can store and a client can ask for. */
  datatype UserType = A | AAAA | CNAME | TXT | MX | TLSA

  function TypeName(t: UserType): string {
    match t
    case A => "A"
    case AAAA => "AAAA"
    case CNAME => "CNAME"
    case TXT => "TXT"
    case MX => "MX"
    case TLSA => "TLSA"
  }

  function TypeCode(t: UserType): nat {
    match t
    case A => TYPE_A
    case AAAA => TYPE_AAAA
    case CNAME => TYPE_CNAME
    case TXT => TYPE_TXT
    case MX => TYPE_MX
    case TLSA => TYPE_TLSA
  }

  function CodeOf(name: string): nat {
    if name == "A" then TYPE_A
    else if name == "AAAA" then TYPE_AAAA
    else if name == "CNAME" then TYPE_CNAME
    else if name == "TXT" then TYPE_TXT
    else if name == "MX" then TYPE_MX
    else if name == "TLSA" then TYPE_TLSA
    else if name == "NS" then TYPE_NS
    else if name == "SOA" then TYPE_SOA
    else if name == "CAA" then TYPE_CAA
    else if name == "DNSKEY" then TYPE_DNSKEY
    else if name == "RRSIG" then TYPE_RRSIG
    else if name == "NSEC" then TYPE_NSEC
    else 0
  }

  function DnsTypeFromString(recordType: string): nat {
    CodeOf(ToUpper(TrimSpace(recordType)))
  }

  lemma CodeOfUserType(name: string, t: UserType)
    ensures CodeOf(name) == TypeCode(t) <==> name == TypeName(t)
  {
  }

  // ---------- The type bitmap

  predicate IntLess(a: nat, b: nat) {
    a < b
  }

  /** The types present at an owner name; a record type the server does not know counts for nothing. */
  ghost function BitMapSet(codes: set<nat>, isZoneApex: bool, dnssecEnabled: bool, synthesizeCAA: bool): set<nat> {
    (codes - {0})
    + (if isZoneApex then {TYPE_SOA, TYPE_NS} else {})
    + (if synthesizeCAA then {TYPE_CAA} else {})
    + (if dnssecEnabled then {TYPE_NSEC, TYPE_RRSIG} else {})
    + (if dnssecEnabled && isZoneApex then {TYPE_DNSKEY} else {})
  }

  /** Strictly ascending, and holding exactly the given types. */
  ghost predicate IsBitMap(bits: seq<nat>, types: set<nat>) {
    && (forall i, j :: 0 <= i < j < |bits| ==> bits[i] < bits[j])
    && (forall t :: t in bits <==> t in types)
  }

  ghost function Elements(codes: seq<nat>): set<nat> {
    set c | c in codes
  }

  /** The codes of the record types, unknown ones included as 0. */
  function Codes(recordTypes: seq<string>): seq<nat> {
    Map(DnsTypeFromString, recordTypes)
  }

  /** The bitmap depends on the set of types alone: not on record order, repeats, or the order
      in which a Go map is visited. */
  lemma BitMapUnique(a: seq<nat>, b: seq<nat>, types: set<nat>)
    requires IsBitMap(a, types) && IsBitMap(b, types)
    ensures a == b
  {
    SameElements(a, b);
    SortedUnique(IntLess, a, b);
  }

  method NsecTypeBitMap(recordTypes: seq<string>, isZoneApex: bool, dnssecEnabled: bool, synthesizeCAA: bool)
    returns (result: seq<nat>)
    ensures IsBitMap(result, BitMapSet(Elements(Codes(recordTypes)), isZoneApex, dnssecEnabled, synthesizeCAA))
  {
    var types := KnownCodes(Codes(recordTypes));
    if isZoneApex {
      types := types + {TYPE_SOA, TYPE_NS};
    }
    if synthesizeCAA {
      types := types + {TYPE_CAA};
    }
    if dnssecEnabled {
      types := types + {TYPE_NSEC, TYPE_RRSIG};
      if isZoneApex {
        types := types + {TYPE_DNSKEY};
      }
    }
    result := SortedElements(types);
  }

  method KnownCodes(codes: seq<nat>) returns (types: set<nat>)
    ensures types == Elements(codes) - {0}
  {
    types := {};
    for i := 0 to |codes|
      invariant types == Elements(codes[..i]) - {0}
    {
      assert codes[..i + 1] == codes[..i] + [codes[i]];
      if codes[i] != 0 {
        types := types + {codes[i]};
      }
    }
    assert codes[..|codes|] == codes;
  }

  /** Lists a set in whatever order it is visited, then sorts. */
  method SortedElements(types: set<nat>) returns (result: seq<nat>)
    ensures IsBitMap(result, types)
  {
    var listed := Visit(types);
    result := Sort(IntLess, listed);
    SortSorted(IntLess, listed);
    PermutationDistinct(listed, result);
    forall t ensures t in result <==> t in types {
      assert t in multiset(result) <==> t in multiset(listed);
    }
  }

  // ---------- Records

  datatype Record = Record(name: string, rtype: string, content: string)

  function TrimDots(s: string): (r: string)
    ensures !HasSuffix(r, ".")
  {
    if HasSuffix(s, ".") then TrimDots(s[..|s| - 1]) else s
  }

  /** `TRIM(TRAILING '.' FROM LOWER(name))` */
  function SqlName(name: string): string {
    TrimDots(ToLower(name))
  }

  /** The name a row is found under: its lower-case name up to the dots at its end. */
  lemma {:induction false} SqlNameIs(d: string, dots: nat)
    requires !HasSuffix(d, ".")
    ensures TrimDots(d + seq(dots, _ => '.')) == d
  {
    var s := d + seq(dots, _ => '.');
    if dots == 0 {
      assert s == d;
    } else {
      assert s[|s| - 1..] == "." && s[..|s| - 1] == d + seq(dots - 1, _ => '.');
      SqlNameIs(d, dots - 1);
    }
  }

  lemma RowIsFoundUnder(name: string, d: string, dots: nat)
    requires !HasSuffix(d, ".") && ToLower(name) == d + seq(dots, _ => '.')
    ensures SqlName(name) == d
  {
    SqlNameIs(d, dots);
  }

  predicate Matches(r: Record, domain: string, rtype: string) {
    SqlName(r.name) == domain && ToUpper(r.rtype) == rtype
  }

  function Matching(domain: string, rtype: string): Record -> bool {
    (r: Record) => Matches(r, domain, rtype)
  }

  /** Contents of the matching rows, in the order of the table. */
  function ContentsOf(records: seq<Record>, matches: Record -> bool): seq<string> {
    if records == [] then []
    else
      var n := |records| - 1;
      ContentsOf(records[..n], matches) + if matches(records[n]) then [records[n].content] else []
  }

  /** The rows a query yields; `LIMIT 1` returns the first of them. */
  function QueryContents(records: seq<Record>, domain: string, rtype: string): seq<string> {
    ContentsOf(records, Matching(domain, rtype))
  }

  /** The first row that matches. */
  ghost predicate FirstMatch(records: seq<Record>, matches: Record -> bool, i: nat) {
    i < |records| && matches(records[i]) && forall j :: 0 <= j < i ==> !matches(records[j])
  }

  /** The positions of exactly the rows that match, ascending. */
  ghost predicate AllMatches(records: seq<Record>, matches: Record -> bool, at: seq<nat>) {
    && (forall k :: 0 <= k < |at| ==> at[k] < |records| && matches(records[at[k]]))
    && (forall k, l :: 0 <= k < l < |at| ==> at[k] < at[l])
    && (forall i :: 0 <= i < |records| && matches(records[i]) ==> i in at)
  }

  /** The contents of the rows at these positions. */
  ghost predicate ContentsAt(records: seq<Record>, at: seq<nat>, contents: seq<string>) {
    && |contents| == |at|
    && forall k :: 0 <= k < |at| ==> at[k] < |records| && contents[k] == records[at[k]].content
  }

  lemma {:induction false} ContentsAre(records: seq<Record>, matches: Record -> bool) returns (at: seq<nat>)
    ensures AllMatches(records, matches, at) && ContentsAt(records, at, ContentsOf(records, matches))
  {
    if records == [] {
      at := [];
    } else {
      var n := |records| - 1;
      at := ContentsAre(records[..n], matches);
      assert forall i :: 0 <= i < n ==> records[..n][i] == records[i];
      if matches(records[n]) {
        at := at + [n];
      }
    }
  }

  lemma FirstOfMatches(records: seq<Record>, matches: Record -> bool, at: seq<nat>)
    requires AllMatches(records, matches, at)
    ensures at != [] ==> FirstMatch(records, matches, at[0])
    ensures at == [] <==> forall r :: r in records ==> !matches(r)
  {
    if at != [] {
      forall j | 0 <= j < at[0] ensures !matches(records[j]) {
        assert forall k :: 0 <= k < |at| ==> at[0] <= at[k];
        assert j !in at;
      }
      assert records[at[0]] in records;
    }
  }

  lemma QueryContentsFinds(records: seq<Record>, domain: string, rtype: string)
    ensures QueryContents(records, domain, rtype) != [] <==> exists r :: r in records && Matches(r, domain, rtype)
    ensures forall c :: c in QueryContents(records, domain, rtype) ==>
              exists r :: r in records && Matches(r, domain, rtype) && r.content == c
  {
    var at := ContentsAre(records, Matching(domain, rtype));
    FirstOfMatches(records, Matching(domain, rtype), at);
  }

  predicate NameExists(zone: string, records: seq<Record>, domain: string) {
    zone != "" && (domain == zone || exists r :: r in records && SqlName(r.name) == domain)
  }

  function RecordNames(records: seq<Record>): (rows: seq<string>)
    ensures |rows| == |records| && forall i :: 0 <= i < |rows| ==> rows[i] == SqlName(records[i].name)
  {
    seq(|records|, i requires 0 <= i < |records| => SqlName(records[i].name))
  }

  function RecordTypes(records: seq<Record>, domain: string): (types: seq<string>)
    ensures forall t :: t in types <==> exists r :: r in records && SqlName(r.name) == domain && ToUpper(r.rtype) == t
  {
    if records == [] then []
    else
      assert records == [records[0]] + records[1..];
      (if SqlName(records[0].name) == domain then [ToUpper(records[0].rtype)] else [])
      + RecordTypes(records[1..], domain)
  }

  // ---------- The proof record

  /** Owner and next domain name without their final dots, and the type bitmap. */
  datatype NsecRecord = NsecRecord(owner: string, next: string, types: seq<nat>)

  /** The canonical names a zone's proofs are taken from, in the order they are sorted into. */
  function ZoneChain(zone: string, records: seq<Record>): (c: seq<string>)
    ensures zone != "" ==> c != []
  {
    CanonicalNames(Sort(NameLess, ZoneNames(zone, Some(RecordNames(records)))))
  }

  /** Bare owner and next name of the span that `qname` falls in. */
  function SpanOf(zone: string, records: seq<Record>, qname: string): (string, string)
    requires zone != ""
  {
    var c := ZoneChain(zone, records);
    var i := ArcStart(NameLess, c, CanonicalName(qname));
    (TrimSuffix(c[i], "."), TrimSuffix(c[Succ(i, |c|)], "."))
  }

  /** Bare owner and next name of the `i`-th record of a chain. */
  function RecordAt(c: seq<string>, i: nat): (string, string)
    requires i < |c|
  {
    (TrimSuffix(c[i], "."), TrimSuffix(c[Succ(i, |c|)], "."))
  }

  /** The record that answers for `qname` in this zone. */
  ghost predicate AnswersFor(n: NsecRecord, zone: string, records: seq<Record>, qname: string, dnssecEnabled: bool)
    requires zone != ""
  {
    && (n.owner, n.next) == SpanOf(zone, records, qname)
    && IsBitMap(n.types,
       BitMapSet(Elements(Codes(RecordTypes(records, n.owner))), n.owner == zone, dnssecEnabled, true))
  }

  /** Builds the record; only a span owned by the root name has none. The bitmap always names CAA,
      so the source's fallback for an empty bitmap is never reached. */
  method BuildNsecProof(zone: string, records: seq<Record>, qname: string, dnssecEnabled: bool)
    returns (proof: Option<NsecRecord>)
    requires zone != ""
    ensures proof.Some? ==> AnswersFor(proof.value, zone, records, qname, dnssecEnabled)
    ensures proof.None? <==> SpanOf(zone, records, qname).0 == ""
  {
    var names := QueryZoneNames(zone, Some(RecordNames(records)));
    names := Sort(NameLess, names);
    var owner, next, _ := FindNsecSpan(names, qname);
    if owner == "" {
      return None;
    }
    var types := NsecTypeBitMap(RecordTypes(records, owner), owner == zone, dnssecEnabled, true);
    return Some(NsecRecord(owner, next, types));
  }

  // ---------- The handler

  datatype QType = User(t: UserType) | NS | CAA | SOA | DNSKEY | DS | Other

  datatype Rcode = NoError | NxDomain | NotImplemented | ServerFailure

  datatype Response = Response(rcode: Rcode, answers: seq<string>, denial: Option<NsecRecord>)

  /** The single-record types answer with one row and treat empty content as no record. */
  predicate Single(t: UserType) {
    t == A || t == AAAA || t == CNAME
  }

  lemma SingleAnswers(t: UserType)
    ensures Single(t) <==> t != TXT && t != MX && t != TLSA
  {
  }

  predicate Missing(records: seq<Record>, qname: string, t: UserType) {
    var contents := QueryContents(records, qname, TypeName(t));
    contents == [] || (Single(t) && contents[0] == "")
  }

  /** No row matches, or the first one that matches a single-record type is empty. */
  ghost predicate NothingStored(records: seq<Record>, matches: Record -> bool, single: bool) {
    || (forall r :: r in records ==> !matches(r))
    || (single && exists i: nat :: FirstMatch(records, matches, i) && records[i].content == "")
  }

  /** The answers are the rows': of a single-record type the first that matches, of any other all
      that match, in the order of the table. */
  ghost predicate AnswersStored(answers: seq<string>, records: seq<Record>, matches: Record -> bool, single: bool) {
    if single then exists i: nat :: FirstMatch(records, matches, i) && answers == [records[i].content]
    else exists at :: AllMatches(records, matches, at) && ContentsAt(records, at, answers)
  }

  lemma StoredAnswers(records: seq<Record>, matches: Record -> bool, single: bool)
    ensures var contents := ContentsOf(records, matches);
            && (contents == [] || (single && contents[0] == "") <==> NothingStored(records, matches, single))
            && (contents != [] ==>
                  AnswersStored(if single then [contents[0]] else contents, records, matches, single))
  {
    var at := ContentsAre(records, matches);
    FirstOfMatches(records, matches, at);
    if exists i: nat :: FirstMatch(records, matches, i) && records[i].content == "" {
      var i: nat :| FirstMatch(records, matches, i) && records[i].content == "";
      assert records[i] in records && i == at[0];
    }
  }

  /** Negative answer: NODATA for a name that exists, NXDOMAIN for any other; in a signed zone
      with the DO bit set it carries the NSEC record. */
  ghost predicate IsNegative(resp: Response, zone: string, records: seq<Record>, qname: string, proofWanted: bool) {
    && resp.rcode == (if NameExists(zone, records, qname) then NoError else NxDomain)
    && resp.answers == []
    && (resp.denial.Some? <==> zone != "" && proofWanted && SpanOf(zone, records, qname).0 != "")
    && (resp.denial.Some? ==> AnswersFor(resp.denial.value, zone, records, qname, true))
  }

  /** NXDOMAIN says that the name is neither the apex nor that of any row. */
  lemma NxDomainMeansAbsent(resp: Response, zone: string, records: seq<Record>, qname: string, proofWanted: bool)
    requires IsNegative(resp, zone, records, qname, proofWanted) && zone != ""
    ensures resp.rcode == NxDomain <==> qname != zone && forall r :: r in records ==> SqlName(r.name) != qname
    ensures resp.rcode == NoError <==> qname == zone || exists r :: r in records && SqlName(r.name) == qname
    ensures resp.denial.Some? ==> proofWanted
  {
  }

  method RespondMissingType(zone: string, records: seq<Record>, qname: string, proofWanted: bool)
    returns (resp: Response)
    ensures IsNegative(resp, zone, records, qname, proofWanted)
  {
    var rcode := if NameExists(zone, records, qname) then NoError else NxDomain;
    var proof: Option<NsecRecord> := None;
    if zone != "" && proofWanted {
      proof := BuildNsecProof(zone, records, qname, true);
    }
    return Response(rcode, [], proof);
  }

  /** The type dispatch. `proofWanted` is the DO bit in a signed zone whose key loads; a row whose
      text is no resource record is dropped from the answers by the DNS library. */
  method HandleDnsQuery(zone: string, records: seq<Record>, qname: string, qtype: QType, proofWanted: bool,
                        dnssecEnabled: bool, keyLoads: bool, nsHosts: seq<string>, caaIssuer: string)
    returns (resp: Response)
    requires proofWanted ==> dnssecEnabled && keyLoads
    ensures qtype.User?
            && (zone == "" || NothingStored(records, Matching(qname, TypeName(qtype.t)), Single(qtype.t))) ==>
              IsNegative(resp, zone, records, qname, proofWanted)
    ensures qtype.User? && zone != ""
            && !NothingStored(records, Matching(qname, TypeName(qtype.t)), Single(qtype.t)) ==>
              && resp.rcode == NoError && resp.denial == None
              && AnswersStored(resp.answers, records, Matching(qname, TypeName(qtype.t)), Single(qtype.t))
    ensures qtype == NS ==>
              resp.answers == (if zone == "" then [] else nsHosts) && (resp.rcode == NxDomain <==> resp.answers == [])
    ensures qtype == CAA && zone != "" ==> resp == Response(NoError, [caaIssuer], None)
    ensures qtype == CAA && zone == "" ==> resp == Response(NxDomain, [], None)
    ensures qtype == SOA && zone != "" && Fqdn(qname) == Fqdn(zone) ==> resp == Response(NoError, [zone], None)
    ensures qtype == DNSKEY ==>
              && (resp.answers != [] <==> resp.rcode == NoError)
              && (resp.rcode == NoError <==> dnssecEnabled && keyLoads && zone != "" && Fqdn(qname) == Fqdn(zone))
              && (resp.rcode == NotImplemented <==> !dnssecEnabled)
              && (resp.rcode == NxDomain <==> dnssecEnabled && (zone == "" || Fqdn(qname) != Fqdn(zone)))
    ensures qtype == Other ==> resp == Response(NotImplemented, [], None)
    ensures resp.rcode in {NotImplemented, ServerFailure} ==> resp.answers == [] && qtype in {DNSKEY, Other}
    ensures qtype == DS || (qtype == SOA && (zone == "" || Fqdn(qname) != Fqdn(zone))) ==>
              IsNegative(resp, zone, records, qname, proofWanted)
    ensures resp.denial.Some? ==> resp.answers == [] && (qtype.User? || qtype == DS || qtype == SOA)
  {
    match qtype
    case User(t) =>
      StoredAnswers(records, Matching(qname, TypeName(t)), Single(t));
      if zone == "" || Missing(records, qname, t) {
        resp := RespondMissingType(zone, records, qname, proofWanted);
      } else {
        var contents := QueryContents(records, qname, TypeName(t));
        resp := Response(NoError, if Single(t) then [contents[0]] else contents, None);
      }
    case NS =>
      resp := if zone == "" || nsHosts == [] then Response(NxDomain, [], None) else Response(NoError, nsHosts, None);
    case CAA =>
      if zone == "" {
        resp := RespondMissingType(zone, records, qname, proofWanted);
      } else {
        resp := Response(NoError, [caaIssuer], None);
      }
    case SOA =>
      if zone == "" || Fqdn(qname) != Fqdn(zone) {
        resp := RespondMissingType(zone, records, qname, proofWanted);
      } else {
        resp := Response(NoError, [zone], None);
      }
    case DNSKEY =>
      resp := if !dnssecEnabled then Response(NotImplemented, [], None)
      else if zone == "" || Fqdn(qname) != Fqdn(zone) then Response(NxDomain, [], None)
      else if !keyLoads then Response(ServerFailure, [], None)
      else Response(NoError, ["DNSKEY"], None);
    case DS =>
      resp := RespondMissingType(zone, records, qname, proofWanted);
    case Other =>
      resp := Response(NotImplemented, [], None);
  }

  // ---------- Denial agrees with the zone

  /** Records under well-formed names of the zone. The record service lowers and trims the names
      it stores; that they lie in the zone and end in no second dot is not checked there. */
  ghost predicate CleanZone(zone: string, records: seq<Record>) {
    && WellFormed(zone)
    && forall r :: r in records ==>
         WellFormed(SqlName(r.name)) && InZone(zone, SqlName(r.name)) && Trimmed(ToUpper(r.rtype))
  }

  /** The names of a clean zone are its apex and its record names, all well-formed. */
  lemma CleanNames(zone: string, records: seq<Record>)
    requires CleanZone(zone, records)
    ensures var names := ZoneNames(zone, Some(RecordNames(records)));
            forall n :: n in names <==> NameExists(zone, records, n)
  {
    var rows := RecordNames(records);
    var mapped := Map(NormalizeName, rows);
    WellFormedName(zone);
    forall i | 0 <= i < |rows| ensures mapped[i] == rows[i] && rows[i] != "" {
      assert records[i] in records;
      WellFormedName(rows[i]);
    }
    assert mapped == rows;
    forall n ensures n in rows <==> exists r :: r in records && SqlName(r.name) == n {
      if n in rows {
        var i :| 0 <= i < |rows| && rows[i] == n;
        assert records[i] in records;
      }
      if r :| r in records && SqlName(r.name) == n {
        var i :| 0 <= i < |records| && records[i] == r;
        assert rows[i] == n;
      }
    }
  }

  lemma CleanKeys(zone: string, records: seq<Record>, x: string, y: string)
    requires CleanZone(zone, records) && NameExists(zone, records, x) && NameExists(zone, records, y)
    ensures Settled(x)
    ensures x != y ==> CanonicalName(x) != CanonicalName(y)
    ensures x != zone ==> NameLess(CanonicalName(zone), CanonicalName(x))
  {
    WellFormedName(x);
    WellFormedName(y);
    DotInjective(x, y);
    if x != zone {
      ApexFirst(zone, x);
    }
  }

  /** A clean zone's names sort into a chain that starts at the apex. */
  lemma CleanChain(zone: string, records: seq<Record>)
    requires CleanZone(zone, records)
    ensures Chain(ZoneChain(zone, records)) && ZoneChain(zone, records)[0] == CanonicalName(zone)
    ensures forall n :: NameExists(zone, records, n) ==> CanonicalName(n) in ZoneChain(zone, records)
    ensures forall x :: x in ZoneChain(zone, records) ==>
            exists n :: NameExists(zone, records, n) && CanonicalName(n) == x
  {
    var names := ZoneNames(zone, Some(RecordNames(records)));
    CleanNames(zone, records);
    assert NameExists(zone, records, zone);
    forall x, y | x in names && y in names
      ensures Settled(x)
      ensures x != y ==> CanonicalName(x) != CanonicalName(y)
      ensures x != zone ==> NameLess(CanonicalName(zone), CanonicalName(x))
    {
      CleanKeys(zone, records, x, y);
    }
    SortedNamesAreAChain(names);
    NameOrderIsWeak();
    SortedKeysStart(NameLess, CanonicalName, names, zone);
    MapSortMembers(NameLess, CanonicalName, names);
  }

  lemma DotInjective(x: string, y: string)
    ensures x + "." == y + "." ==> x == y
  {
    assert (x + ".")[..|x|] == x && (y + ".")[..|y|] == y;
  }

  lemma ApexFirst(zone: string, n: string)
    requires WellFormed(zone) && WellFormed(n) && InZone(zone, n) && n != zone
    ensures NameLess(zone, n) && NameLess(CanonicalName(zone), CanonicalName(n))
  {
    InZoneIsDescendant(zone, n);
    AncestorFirst(zone, n);
    WellFormedName(zone);
    WellFormedName(n);
    SettledLess(zone, n);
  }

  /** The record strictly covers the name: it lies after the owner, and before the next name
      unless the next name is the apex (section 4.1.1 of RFC 4034). */
  predicate Covers(span: (string, string), zone: string, name: string) {
    NameLess(span.0, name) && (span.1 == zone || NameLess(name, span.1))
  }

  /** A position of the chain, read as a name of the zone. */
  lemma ChainEntry(zone: string, records: seq<Record>, i: nat) returns (name: string)
    requires CleanZone(zone, records) && i < |ZoneChain(zone, records)|
    ensures NameExists(zone, records, name) && WellFormed(name)
    ensures ZoneChain(zone, records)[i] == CanonicalName(name)
    ensures TrimSuffix(ZoneChain(zone, records)[i], ".") == name
    ensures i == 0 <==> name == zone
  {
    var c := ZoneChain(zone, records);
    CleanChain(zone, records);
    assert c[i] in c;
    name :| NameExists(zone, records, name) && CanonicalName(name) == c[i];
    WellFormedName(name);
    assert NameExists(zone, records, zone);
    CleanKeys(zone, records, name, zone);
    NameOrderIsWeak();
    IndexOrder(NameLess, c, 0, i);
  }

  /** The span's ends are names of the zone; a name of the zone is its own span's owner, any other
      is strictly covered; and no name of the zone is covered by any span. */
  lemma SpanOfCleanZone(zone: string, records: seq<Record>, qname: string)
    requires CleanZone(zone, records) && WellFormed(qname) && InZone(zone, qname)
    ensures var span := SpanOf(zone, records, qname);
            && NameExists(zone, records, span.0) && NameExists(zone, records, span.1)
            && (NameExists(zone, records, qname) ==> span.0 == qname)
            && (!NameExists(zone, records, qname) ==> Covers(span, zone, qname))
  {
    var c, q := ZoneChain(zone, records), CanonicalName(qname);
    var i := ArcStart(NameLess, c, q);
    var j := Succ(i, |c|);
    CleanChain(zone, records);
    WellFormedName(qname);
    var owner := ChainEntry(zone, records, i);
    var next := ChainEntry(zone, records, j);
    if NameExists(zone, records, qname) {
      ArcStartOfMember(NameLess, c, q);
      DotInjective(owner, qname);
      WellFormedName(owner);
    } else {
      NameOrderIsWeak();
      forall x | x in c ensures NameLess(x, q) || NameLess(q, x) {
        OutsideComparable(zone, records, qname, x);
      }
      ApexFirst(zone, qname);
      ArcAfterFirst(NameLess, c, q);
      WellFormedName(owner);
      WellFormedName(next);
      SettledLess(owner, qname);
      SettledLess(qname, next);
    }
  }

  lemma OutsideComparable(zone: string, records: seq<Record>, qname: string, x: string)
    requires CleanZone(zone, records) && WellFormed(qname) && !NameExists(zone, records, qname)
    requires x in ZoneChain(zone, records)
    ensures NameLess(x, CanonicalName(qname)) || NameLess(CanonicalName(qname), x)
  {
    var i :| 0 <= i < |ZoneChain(zone, records)| && ZoneChain(zone, records)[i] == x;
    var name := ChainEntry(zone, records, i);
    WellFormedName(name);
    WellFormedName(qname);
    DotInjective(name, qname);
    SettledLess(name, qname);
    SettledLess(qname, name);
  }

  /** Nothing that exists is ever denied: no span covers a name of the zone. */
  lemma SpanCoversNoZoneName(zone: string, records: seq<Record>, qname: string, name: string)
    requires CleanZone(zone, records) && NameExists(zone, records, name)
    ensures !Covers(SpanOf(zone, records, qname), zone, name)
  {
    var c := ZoneChain(zone, records);
    var i := ArcStart(NameLess, c, CanonicalName(qname));
    CleanChain(zone, records);
    NameOrderIsWeak();
    var owner := ChainEntry(zone, records, i);
    var next := ChainEntry(zone, records, Succ(i, |c|));
    MemberNotInArc(NameLess, c, i, CanonicalName(name));
    CoversCanonically((owner, next), zone, name);
  }

  lemma CoversCanonically(span: (string, string), zone: string, name: string)
    requires WellFormed(span.0) && WellFormed(span.1) && WellFormed(name)
    ensures Covers(span, zone, name) <==>
              && NameLess(CanonicalName(span.0), CanonicalName(name))
              && (span.1 == zone || NameLess(CanonicalName(name), CanonicalName(span.1)))
  {
    WellFormedName(span.0);
    WellFormedName(span.1);
    WellFormedName(name);
    SettledLess(span.0, name);
    SettledLess(name, span.1);
  }

  /** Of all the records of the chain, exactly the one sent denies a name that does not exist. */
  lemma OnlyOneRecordDenies(zone: string, records: seq<Record>, qname: string, j: nat)
    requires CleanZone(zone, records) && WellFormed(qname) && !NameExists(zone, records, qname)
    requires j < |ZoneChain(zone, records)|
    ensures InArc(NameLess, ZoneChain(zone, records), j, CanonicalName(qname))
            <==> j == ArcStart(NameLess, ZoneChain(zone, records), CanonicalName(qname))
  {
    CleanChain(zone, records);
    NameOrderIsWeak();
    forall x | x in ZoneChain(zone, records)
      ensures NameLess(x, CanonicalName(qname)) || NameLess(CanonicalName(qname), x)
    {
      OutsideComparable(zone, records, qname, x);
    }
    OnlyOneArc(NameLess, ZoneChain(zone, records), CanonicalName(qname));
  }

  /** The same of the records themselves: of all owners and next names of the chain, exactly those
      sent cover a name of the zone's tree that does not exist. */
  lemma OnlyOneRecordCovers(zone: string, records: seq<Record>, qname: string, j: nat)
    requires CleanZone(zone, records) && WellFormed(qname) && InZone(zone, qname) && !NameExists(zone, records, qname)
    requires j < |ZoneChain(zone, records)|
    ensures Covers(RecordAt(ZoneChain(zone, records), j), zone, qname)
            <==> j == ArcStart(NameLess, ZoneChain(zone, records), CanonicalName(qname))
  {
    var c := ZoneChain(zone, records);
    OnlyOneRecordDenies(zone, records, qname, j);
    var owner := ChainEntry(zone, records, j);
    var next := ChainEntry(zone, records, Succ(j, |c|));
    CoversCanonically((owner, next), zone, qname);
    ApexFirst(zone, qname);
    CleanChain(zone, records);
    NameOrderIsWeak();
  }

  lemma NextNameIs(zone: string, records: seq<Record>, name: string, i: nat)
    requires zone != "" && i < |ZoneChain(zone, records)|
    requires ArcStart(NameLess, ZoneChain(zone, records), CanonicalName(name)) == i
    ensures SpanOf(zone, records, name).1
            == TrimSuffix(ZoneChain(zone, records)[Succ(i, |ZoneChain(zone, records)|)], ".")
  {
  }

  lemma ChainIndex(zone: string, records: seq<Record>, i: nat)
    requires CleanZone(zone, records) && i < |ZoneChain(zone, records)|
    ensures ArcStart(NameLess, ZoneChain(zone, records), ZoneChain(zone, records)[i]) == i
  {
    CleanChain(zone, records);
    NameOrderIsWeak();
    ArcStartOfIndex(NameLess, ZoneChain(zone, records), i);
  }

  /** The record owned by the `i`-th name leads to the name after it. */
  lemma NextOfIndex(zone: string, records: seq<Record>, i: nat, name: string)
    requires CleanZone(zone, records) && i < |ZoneChain(zone, records)|
    requires CanonicalName(name) == ZoneChain(zone, records)[i]
    ensures var next := SpanOf(zone, records, name).1;
            && NameExists(zone, records, next)
            && CanonicalName(next) == ZoneChain(zone, records)[Succ(i, |ZoneChain(zone, records)|)]
  {
    ChainIndex(zone, records, i);
    NextNameIs(zone, records, name, i);
    var next := ChainEntry(zone, records, Succ(i, |ZoneChain(zone, records)|));
  }

  /** `name` and its position in a chain. */
  predicate IsNamedAt(c: seq<string>, name: string, i: nat) {
    i < |c| && CanonicalName(name) == c[i]
  }

  /** `next` is the next name of the record given for `name`. */
  predicate Leads(zone: string, records: seq<Record>, name: string, next: string) {
    zone != "" && next == SpanOf(zone, records, name).1
  }

  /** Names met from the apex on, each the next name of the record of the one before. */
  predicate IsPath(zone: string, records: seq<Record>, path: seq<string>) {
    path != [] && path[0] == zone && forall i :: 0 <= i < |path| - 1 ==> Leads(zone, records, path[i], path[i + 1])
  }

  lemma LeadsOn(zone: string, records: seq<Record>, c: seq<string>, i: nat, name: string, next: string)
    requires CleanZone(zone, records) && c == ZoneChain(zone, records)
    requires IsNamedAt(c, name, i) && Leads(zone, records, name, next)
    ensures IsNamedAt(c, next, Succ(i, |c|)) && NameExists(zone, records, next)
  {
    NextOfIndex(zone, records, i, name);
  }

  lemma ApexIsFirst(zone: string, records: seq<Record>, c: seq<string>)
    requires CleanZone(zone, records) && c == ZoneChain(zone, records)
    ensures IsNamedAt(c, zone, 0) && NameExists(zone, records, zone)
  {
    CleanChain(zone, records);
  }

  lemma {:induction false} PathIs(zone: string, records: seq<Record>, c: seq<string>, path: seq<string>, k: nat)
    requires CleanZone(zone, records) && c == ZoneChain(zone, records) && IsPath(zone, records, path)
    requires k < |path| && k <= |c|
    ensures IsNamedAt(c, path[k], if k == |c| then 0 else k) && NameExists(zone, records, path[k])
    decreases k
  {
    if k == 0 {
      ApexIsFirst(zone, records, c);
    } else {
      PathIs(zone, records, c, path, k - 1);
      LeadsOn(zone, records, c, k - 1, path[k - 1], path[k]);
    }
  }

  lemma SamePlaceSameName(zone: string, records: seq<Record>, c: seq<string>, x: string, y: string, i: nat, j: nat)
    requires CleanZone(zone, records) && c == ZoneChain(zone, records)
    requires NameExists(zone, records, x) && NameExists(zone, records, y)
    requires IsNamedAt(c, x, i) && IsNamedAt(c, y, j)
    ensures x == y <==> i == j
  {
    CleanKeys(zone, records, x, y);
    CleanChain(zone, records);
    NameOrderIsWeak();
    IndexOrder(NameLess, c, i, j);
  }

  lemma PlaceOf(zone: string, records: seq<Record>, c: seq<string>, name: string) returns (i: nat)
    requires CleanZone(zone, records) && c == ZoneChain(zone, records) && NameExists(zone, records, name)
    ensures IsNamedAt(c, name, i)
  {
    CleanChain(zone, records);
    assert CanonicalName(name) in c;
    i :| 0 <= i < |c| && c[i] == CanonicalName(name);
  }

  /** From the apex, next names lead through every name of the zone, each once and nothing else, and
      back: the records of a clean zone form a single cycle. */
  lemma NextNamesAreOneCycle(zone: string, records: seq<Record>, path: seq<string>)
    requires CleanZone(zone, records) && IsPath(zone, records, path) && |path| == |ZoneChain(zone, records)| + 1
    ensures path[|path| - 1] == zone
    ensures forall a, b :: 0 <= a < b < |path| - 1 ==> path[a] != path[b]
    ensures forall name :: name in path <==> NameExists(zone, records, name)
  {
    var c := ZoneChain(zone, records);
    forall k | 0 <= k < |path|
      ensures IsNamedAt(c, path[k], if k == |c| then 0 else k) && NameExists(zone, records, path[k])
    {
      PathIs(zone, records, c, path, k);
    }
    SamePlaceSameName(zone, records, c, path[|c|], path[0], 0, 0);
    forall a, b | 0 <= a < b < |c| ensures path[a] != path[b] {
      SamePlaceSameName(zone, records, c, path[a], path[b], a, b);
    }
    forall name | NameExists(zone, records, name) ensures name in path {
      var i := PlaceOf(zone, records, c, name);
      SamePlaceSameName(zone, records, c, name, path[i], i, i);
    }
  }

  /** A user type is in the owner's bitmap exactly when a record of that type is stored there. */
  lemma BitmapTellsTheTypes(zone: string, records: seq<Record>, owner: string, bits: seq<nat>, t: UserType)
    requires CleanZone(zone, records)
    requires IsBitMap(bits, BitMapSet(Elements(Codes(RecordTypes(records, owner))), owner == zone, true, true))
    ensures TypeCode(t) in bits <==> exists r :: r in records && Matches(r, owner, TypeName(t))
    ensures TYPE_DS !in bits
  {
    var types := RecordTypes(records, owner);
    var codes := Codes(types);
    forall k | 0 <= k < |types|
      ensures codes[k] == TypeCode(t) <==> types[k] == TypeName(t)
      ensures codes[k] != TYPE_DS
    {
      assert types[k] in types;
      var r :| r in records && SqlName(r.name) == owner && ToUpper(r.rtype) == types[k];
      CodeOfStored(r.rtype, t);
    }
    MatchingIndex(codes, types, TypeCode(t), TypeName(t));
    BitOfCode(bits, codes, owner == zone, t);
  }

  /** The other types of the bitmap, by their numbers: SOA and NS at the apex or where stored, CAA
      always, RRSIG and NSEC in a signed zone, DNSKEY at its apex. */
  lemma BitmapTellsTheRest(bits: seq<nat>, codes: seq<nat>, isZoneApex: bool, signed: bool, synthesizeCAA: bool)
    requires IsBitMap(bits, BitMapSet(Elements(codes), isZoneApex, signed, synthesizeCAA))
    ensures 6 in bits <==> isZoneApex || 6 in codes
    ensures 2 in bits <==> isZoneApex || 2 in codes
    ensures 257 in bits <==> synthesizeCAA || 257 in codes
    ensures 46 in bits <==> signed || 46 in codes
    ensures 47 in bits <==> signed || 47 in codes
    ensures 48 in bits <==> (signed && isZoneApex) || 48 in codes
    ensures 0 !in bits && forall t :: t in bits ==> t in codes || t in {2, 6, 46, 47, 48, 257}
  {
  }

  lemma BitOfCode(bits: seq<nat>, codes: seq<nat>, isZoneApex: bool, t: UserType)
    requires IsBitMap(bits, BitMapSet(Elements(codes), isZoneApex, true, true))
    ensures TypeCode(t) in bits <==> TypeCode(t) in codes
    ensures TYPE_DS in bits <==> TYPE_DS in codes
  {
  }

  lemma MatchingIndex(codes: seq<nat>, types: seq<string>, code: nat, name: string)
    requires |codes| == |types| && forall k :: 0 <= k < |codes| ==> (codes[k] == code <==> types[k] == name)
    ensures code in codes <==> name in types
  {
    if code in codes {
      var k :| 0 <= k < |codes| && codes[k] == code;
      assert types[k] in types;
    }
    if name in types {
      var k :| 0 <= k < |types| && types[k] == name;
      assert codes[k] in codes;
    }
  }

  lemma CodeOfStored(rtype: string, t: UserType)
    requires Trimmed(ToUpper(rtype))
    ensures DnsTypeFromString(ToUpper(rtype)) == TypeCode(t) <==> ToUpper(rtype) == TypeName(t)
    ensures DnsTypeFromString(ToUpper(rtype)) != TYPE_DS
  {
    StoredTypeIsNormal(rtype);
    CodeOfUserType(ToUpper(rtype), t);
  }

  lemma StoredTypeIsNormal(rtype: string)
    requires Trimmed(ToUpper(rtype))
    ensures ToUpper(TrimSpace(ToUpper(rtype))) == ToUpper(rtype)
  {
    TrimSpaceTrimmed(ToUpper(rtype));
  }

  /** Denial agrees with the zone. The record sent with a negative answer is owned by the query
      name exactly when the name exists, and then its bitmap lacks the queried type exactly when
      no such record is stored; otherwise it strictly covers the name, and it covers no name that
      exists. */
  lemma DenialAgreesWithZone(zone: string, records: seq<Record>, qname: string, n: NsecRecord, t: UserType)
    requires CleanZone(zone, records) && WellFormed(qname) && InZone(zone, qname)
    requires AnswersFor(n, zone, records, qname, true)
    ensures n.owner == qname <==> NameExists(zone, records, qname)
    ensures Covers((n.owner, n.next), zone, qname) <==> !NameExists(zone, records, qname)
    ensures n.owner == qname ==>
              (TypeCode(t) in n.types <==> exists r :: r in records && Matches(r, qname, TypeName(t)))
    ensures forall m :: NameExists(zone, records, m) ==> !Covers((n.owner, n.next), zone, m)
  {
    SpanOfCleanZone(zone, records, qname);
    forall m | NameExists(zone, records, m) ensures !Covers((n.owner, n.next), zone, m) {
      SpanCoversNoZoneName(zone, records, qname, m);
    }
    BitmapTellsTheTypes(zone, records, n.owner, n.types, t);
  }

  /** When the handler calls a type missing, the bitmap it sends agrees exactly if no row matches
      at all; a matching row of a single-record type with empty content is the one exception. */
  lemma NoDataIsTruthful(zone: string, records: seq<Record>, qname: string, n: NsecRecord, t: UserType)
    requires CleanZone(zone, records) && WellFormed(qname) && InZone(zone, qname)
    requires NameExists(zone, records, qname) && Missing(records, qname, t)
    requires AnswersFor(n, zone, records, qname, true)
    ensures TypeCode(t) !in n.types <==> QueryContents(records, qname, TypeName(t)) == []
    ensures (forall r :: r in records ==> r.content != "") ==> TypeCode(t) !in n.types
  {
    DenialAgreesWithZone(zone, records, qname, n, t);
    QueryContentsFinds(records, qname, TypeName(t));
    var contents := QueryContents(records, qname, TypeName(t));
    if contents != [] {
      assert contents[0] in contents;
    }
  }

  /** The exception occurs: an A record with empty content at the apex. The answer says that there
      is no A record, the bitmap sent with it says that there is one. */
  lemma EmptyContentIsAnnounced(zone: string, n: NsecRecord)
    requires WellFormed(zone)
    ensures var records := [Record(zone, "A", "")];
            && CleanZone(zone, records) && NameExists(zone, records, zone) && Missing(records, zone, A)
            && (AnswersFor(n, zone, records, zone, true) ==> TypeCode(A) in n.types)
  {
    var records := [Record(zone, "A", "")];
    PlainSqlName(zone);
    UpperA();
    assert Matches(records[0], zone, TypeName(A));
    OneRow(records[0], zone, TypeName(A));
    if AnswersFor(n, zone, records, zone, true) {
      NoDataIsTruthful(zone, records, zone, n, A);
    }
  }

  lemma PlainSqlName(name: string)
    requires WellFormed(name)
    ensures SqlName(name) == name
  {
  }

  lemma UpperA()
    ensures ToUpper("A") == "A" == TypeName(A) && Trimmed("A")
  {
  }

  lemma OneRow(r: Record, domain: string, rtype: string)
    requires Matches(r, domain, rtype)
    ensures QueryContents([r], domain, rtype) == [r.content]
  {
    assert ContentsOf([r][..0], Matching(domain, rtype)) == [];
  }
}
