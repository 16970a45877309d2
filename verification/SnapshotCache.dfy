/** The cache of analytics snapshots: which requests share an entry, and how old it gets. */
module SnapshotCache {
  import opened Text
  import opened Sorting

  /** Durations and instants are in nanoseconds; the instant 0 is the zero time. */
  const TTL: int := 5_000_000_000
  const MINUTE: int := 60_000_000_000
  const CAPACITY: nat := 128
  const SEPARATOR: char := '\U{1F}'

  datatype Filters = Filters(
    rangeMinutes: int, host: string, verb: string, status: int, statusClass: string, quickSearch: string,
    uriContains: string, ipContains: string, ispContains: string, verdict: string,
    from: int, to: int, cacheOnly: bool, includeInternalApi: bool)

  // ---------- Normalisation

  function StatusClass(raw: string): string {
    var t := ToLower(TrimSpace(raw));
    if t in {"1xx", "2xx", "3xx", "4xx", "5xx"} then t else ""
  }

  /** The window asked for; a missing end is filled in, and ends the wrong way round are swapped. */
  function Window(from: int, to: int, minutes: int, now: int): (int, int) {
    var (a, b) :=
      if from == 0 && to == 0 then (now - minutes * MINUTE, now)
      else if from == 0 then (to - minutes * MINUTE, to)
      else if to == 0 then (from, now)
      else (from, to);
    if b < a then (b, a) else (a, b)
  }

  function Minutes(range: int): int {
    if range <= 0 then 60 else range
  }

  /** `normalizeAnalyticsFilters` */
  function Normalized(f: Filters, now: int): Filters {
    var (from, to) := Window(f.from, f.to, Minutes(f.rangeMinutes), now);
    Filters(Minutes(f.rangeMinutes), TrimSpace(f.host), ToUpper(TrimSpace(f.verb)), f.status,
            StatusClass(f.statusClass), TrimSpace(f.quickSearch), TrimSpace(f.uriContains), TrimSpace(f.ipContains),
            TrimSpace(f.ispContains), ToLower(TrimSpace(f.verdict)), from, to, f.cacheOnly, f.includeInternalApi)
  }

  lemma WindowSettles(from: int, to: int, minutes: int, now: int, later: int)
    requires minutes > 0 && now != 0
    ensures var (a, b) := Window(from, to, minutes, now); Window(a, b, minutes, later) == (a, b)
  {
  }

  lemma TrimTwice(s: string)
    ensures TrimSpace(TrimSpace(s)) == TrimSpace(s)
  {
    TrimSpaceTrimmed(s);
    TrimSpaceTrimmed(TrimSpace(s));
  }

  lemma UpperSettles(s: string)
    ensures ToUpper(TrimSpace(ToUpper(TrimSpace(s)))) == ToUpper(TrimSpace(s))
  {
    var t := TrimSpace(s);
    TrimSpaceTrimmed(s);
    TrimSpaceTrimmed(ToUpper(t));
    assert ToUpper(ToUpper(t)) == ToUpper(t);
  }

  lemma ClassSettles(s: string)
    ensures StatusClass(StatusClass(s)) == StatusClass(s)
  {
    LowerSettles(s);
    EmptySettles();
  }

  lemma EmptySettles()
    ensures StatusClass("") == ""
  {
    assert TrimSpace("") == "" && ToLower("") == "";
  }

  /** Normalising later what was normalised changes nothing: the window no longer moves. */
  lemma NormalizingIsIdempotent(f: Filters, now: int, later: int)
    requires now != 0
    ensures Normalized(Normalized(f, now), later) == Normalized(f, now)
  {
    WindowSettles(f.from, f.to, Minutes(f.rangeMinutes), now, later);
    TrimTwice(f.host);
    UpperSettles(f.verb);
    ClassSettles(f.statusClass);
    TrimTwice(f.quickSearch);
    TrimTwice(f.uriContains);
    TrimTwice(f.ipContains);
    TrimTwice(f.ispContains);
    LowerSettles(f.verdict);
  }

  // ---------- The query

  datatype Arg = Instant(at: int) | Word(text: string) | Number(n: int)

  const CLIENT := "TRIM(remote_addr)"
  const GEO := "EXISTS (SELECT 1 FROM ip_geolocation geo WHERE geo.ip = " + CLIENT + " AND geo.isp LIKE ?)"
  const QUICK := "(host LIKE ? OR uri LIKE ? OR method LIKE ? OR " + CLIENT + " LIKE ? OR " + GEO + ")"

  function Like(s: string): Arg {
    Word("%" + s + "%")
  }

  datatype Query = Query(text: string, args: seq<Arg>)

  /** Conditions of the normalised filters with their arguments, in order. */
  function Conditions(n: Filters): seq<(string, seq<Arg>)> {
    [("`time` >= ?", [Instant(n.from)]), ("`time` <= ?", [Instant(n.to)])]
    + (if n.host != "" then [("host = ?", [Word(n.host)])] else [])
    + (if n.verb != "" then [("method = ?", [Word(n.verb)])] else [])
    + (if n.status > 0 then [("status = ?", [Number(n.status)])] else [])
    + (if n.statusClass != "" then [("status BETWEEN ? AND ?", ClassBounds(n.statusClass))] else [])
    + (if n.quickSearch != "" then [(QUICK, seq(5, _ => Like(n.quickSearch)))] else [])
    + (if n.uriContains != "" then [("uri LIKE ?", [Like(n.uriContains)])] else [])
    + (if n.ipContains != "" then [("remote_addr LIKE ?", [Like(n.ipContains)])] else [])
    + (if n.ispContains != "" then [(GEO, [Like(n.ispContains)])] else [])
    + (if !n.includeInternalApi then [("uri NOT LIKE ?", [Word("/api/%")])] else [])
  }

  function ClassBounds(statusClass: string): seq<Arg> {
    if statusClass == "" then []
    else
      var base := (statusClass[0] as int - '0' as int) * 100;
      [Number(base), Number(base + 99)]
  }

  function Texts(cs: seq<(string, seq<Arg>)>): seq<string> {
    if cs == [] then [] else [cs[0].0] + Texts(cs[1..])
  }

  function Args(cs: seq<(string, seq<Arg>)>): seq<Arg> {
    if cs == [] then [] else cs[0].1 + Args(cs[1..])
  }

  /** `analyticsWhereClause` */
  function Where(f: Filters, now: int): Query {
    var cs := Conditions(Normalized(f, now));
    Query("WHERE " + Join(Texts(cs), " AND "), Args(cs))
  }

  lemma {:induction false} PartsConcat(a: seq<(string, seq<Arg>)>, b: seq<(string, seq<Arg>)>)
    ensures Texts(a + b) == Texts(a) + Texts(b) && Args(a + b) == Args(a) + Args(b)
  {
    if a == [] {
      assert a + b == b;
    } else {
      assert (a + b)[0] == a[0] && (a + b)[1..] == a[1..] + b;
      PartsConcat(a[1..], b);
    }
  }

  /** `if wanted { ... }`: one condition and its arguments are appended. */
  method AppendIf(ghost put: seq<(string, seq<Arg>)>, conditions: seq<string>, args: seq<Arg>, wanted: bool,
                  text: string, more: seq<Arg>)
    returns (conditions': seq<string>, args': seq<Arg>, ghost put': seq<(string, seq<Arg>)>)
    requires conditions == Texts(put) && args == Args(put)
    ensures put' == put + (if wanted then [(text, more)] else [])
    ensures conditions' == Texts(put') && args' == Args(put')
  {
    conditions', args', put' := conditions, args, put;
    assert put + [] == put;
    if wanted {
      put' := put + [(text, more)];
      PartsConcat(put, [(text, more)]);
      assert Args([(text, more)]) == more;
      conditions', args' := conditions + [text], args + more;
    }
  }

  /** `analyticsWhereClause`: conditions and arguments grow side by side. */
  method AnalyticsWhereClause(f: Filters, now: int) returns (q: Query)
    ensures q == Where(f, now)
  {
    var n := Normalized(f, now);
    var conditions, args := ["`time` >= ?", "`time` <= ?"], [Instant(n.from), Instant(n.to)];
    ghost var put := [("`time` >= ?", [Instant(n.from)]), ("`time` <= ?", [Instant(n.to)])];
    PartsConcat(put[..1], put[1..]);
    conditions, args, put := AppendIf(put, conditions, args, n.host != "", "host = ?", [Word(n.host)]);
    conditions, args, put := AppendIf(put, conditions, args, n.verb != "", "method = ?", [Word(n.verb)]);
    conditions, args, put := AppendIf(put, conditions, args, n.status > 0, "status = ?", [Number(n.status)]);
    conditions, args, put := AppendIf(put, conditions, args, n.statusClass != "", "status BETWEEN ? AND ?",
                                      ClassBounds(n.statusClass));
    conditions, args, put := AppendIf(put, conditions, args, n.quickSearch != "", QUICK,
                                      seq(5, _ => Like(n.quickSearch)));
    conditions, args, put := AppendIf(put, conditions, args, n.uriContains != "", "uri LIKE ?", [Like(n.uriContains)]);
    conditions, args, put := AppendIf(put, conditions, args, n.ipContains != "", "remote_addr LIKE ?",
                                      [Like(n.ipContains)]);
    conditions, args, put := AppendIf(put, conditions, args, n.ispContains != "", GEO, [Like(n.ispContains)]);
    conditions, args, put := AppendIf(put, conditions, args, !n.includeInternalApi, "uri NOT LIKE ?", [Word("/api/%")]);
    assert put == Conditions(n);
    q := Query("WHERE " + Join(conditions, " AND "), args);
  }

  // ---------- The key

  function Numeral(n: int): string {
    if n < 0 then "-" + Itoa(-n) else Itoa(n)
  }

  function KeyParts(n: Filters, format: int -> string): (parts: seq<string>)
    ensures |parts| == 13
  {
    [Numeral(n.rangeMinutes), n.host, n.verb, Numeral(n.status), n.statusClass, n.quickSearch, n.uriContains,
     n.ipContains, n.ispContains, n.verdict, format(n.from), format(n.to),
     if n.includeInternalApi then "true" else "false"]
  }

  /** `analyticsSnapshotCacheKey`; `format` writes an instant as text. */
  function Key(f: Filters, now: int, format: int -> string): string {
    Join(KeyParts(Normalized(f, now), format), [SEPARATOR])
  }

  ghost predicate GoodFormat(format: int -> string) {
    (forall t, u :: format(t) == format(u) ==> t == u) && forall t :: SEPARATOR !in format(t)
  }

  predicate AllOk(s: string, ok: char -> bool) {
    forall i :: 0 <= i < |s| ==> ok(s[i])
  }

  /** The texts of the filters are made of the characters that are `ok`; the status class is left
      out, as what it may be is fixed. */
  predicate Uses(f: Filters, ok: char -> bool) {
    && AllOk(f.host, ok) && AllOk(f.verb, ok) && AllOk(f.quickSearch, ok) && AllOk(f.uriContains, ok)
    && AllOk(f.ipContains, ok) && AllOk(f.ispContains, ok) && AllOk(f.verdict, ok)
  }

  /** No text of the filters holds the separator. */
  predicate Free(f: Filters) {
    && SEPARATOR !in f.host && SEPARATOR !in f.verb && SEPARATOR !in f.quickSearch && SEPARATOR !in f.uriContains
    && SEPARATOR !in f.ipContains && SEPARATOR !in f.ispContains && SEPARATOR !in f.verdict
  }

  lemma NumeralInjective(n: int, m: int)
    requires Numeral(n) == Numeral(m)
    ensures n == m
  {
    NumeralStart(n);
    NumeralStart(m);
    if n < 0 && m < 0 {
      assert Numeral(n)[1..] == Itoa(-n) && Numeral(m)[1..] == Itoa(-m);
      ItoaInjective(-n, -m);
    } else if n >= 0 && m >= 0 {
      ItoaInjective(n, m);
    }
  }

  lemma NumeralStart(n: int)
    ensures Numeral(n) != "" && (Numeral(n)[0] == '-' <==> n < 0)
    ensures SEPARATOR !in Numeral(n)
  {
    if n < 0 {
      ItoaIsDigits(-n);
    } else {
      ItoaIsDigits(n);
      ItoaLast(n);
      assert Itoa(n)[0] in Itoa(n);
    }
  }

  lemma {:induction false} TrimmedChars(s: string, c: char)
    requires c !in s
    ensures c !in TrimSpace(s)
  {
    TrimLeftChars(s, c);
    TrimRightChars(TrimLeft(s), c);
  }

  lemma {:induction false} TrimLeftChars(s: string, c: char)
    requires c !in s
    ensures c !in TrimLeft(s)
  {
    if s != [] && IsSpace(s[0]) {
      TrimLeftChars(s[1..], c);
    }
  }

  lemma {:induction false} TrimRightChars(s: string, c: char)
    requires c !in s
    ensures c !in TrimRight(s)
  {
    if s != [] && IsSpace(s[|s| - 1]) {
      TrimRightChars(s[..|s| - 1], c);
    }
  }

  lemma NormalizedIsFree(f: Filters, now: int)
    requires Free(f)
    ensures Free(Normalized(f, now)) && SEPARATOR !in Normalized(f, now).statusClass
  {
    TrimmedChars(f.host, SEPARATOR);
    TrimmedChars(f.verb, SEPARATOR);
    TrimmedChars(f.quickSearch, SEPARATOR);
    TrimmedChars(f.uriContains, SEPARATOR);
    TrimmedChars(f.ipContains, SEPARATOR);
    TrimmedChars(f.ispContains, SEPARATOR);
    TrimmedChars(f.verdict, SEPARATOR);
    ClassIsFree(f.statusClass);
    CaseKeepsFree(TrimSpace(f.verb));
    CaseKeepsFree(TrimSpace(f.verdict));
  }

  lemma ClassIsFree(s: string)
    ensures SEPARATOR !in StatusClass(s)
  {
  }

  lemma CaseKeepsFree(s: string)
    requires SEPARATOR !in s
    ensures SEPARATOR !in ToUpper(s) && SEPARATOR !in ToLower(s)
  {
  }

  lemma PartsAreFree(n: Filters, format: int -> string)
    requires Free(n) && SEPARATOR !in n.statusClass && GoodFormat(format)
    ensures forall p :: p in KeyParts(n, format) ==> SEPARATOR !in p
  {
    NumeralStart(n.rangeMinutes);
    NumeralStart(n.status);
  }

  lemma SameParts(m: Filters, n: Filters, format: int -> string)
    requires GoodFormat(format) && KeyParts(m, format) == KeyParts(n, format)
    ensures m == n.(cacheOnly := m.cacheOnly)
  {
    var a, b := KeyParts(m, format), KeyParts(n, format);
    assert forall i :: 0 <= i < 13 ==> a[i] == b[i];
    NumeralInjective(m.rangeMinutes, n.rangeMinutes);
    NumeralInjective(m.status, n.status);
    assert a[10] == b[10] && a[11] == b[11];
    assert a[12] == b[12];
    assert |"true"| != |"false"|;
  }

  /** Equal keys mean equal normalised filters, up to the flag that is not part of the query ... */
  lemma EqualKeysEqualFilters(f: Filters, g: Filters, now: int, later: int, format: int -> string)
    requires GoodFormat(format) && Free(f) && Free(g) && Key(f, now, format) == Key(g, later, format)
    ensures Normalized(f, now) == Normalized(g, later).(cacheOnly := f.cacheOnly)
  {
    var m, n := Normalized(f, now), Normalized(g, later);
    NormalizedIsFree(f, now);
    NormalizedIsFree(g, later);
    PartsAreFree(m, format);
    PartsAreFree(n, format);
    SplitJoin(KeyParts(m, format), SEPARATOR);
    SplitJoin(KeyParts(n, format), SEPARATOR);
    SameParts(m, n, format);
  }

  /** ... and so the same query, whenever the two are asked. */
  lemma EqualKeysSameQuery(f: Filters, g: Filters, now: int, later: int, format: int -> string, t: int, u: int)
    requires GoodFormat(format) && Free(f) && Free(g) && now != 0 && later != 0
    requires Key(f, now, format) == Key(g, later, format)
    ensures Where(Normalized(f, now), t) == Where(Normalized(g, later), u)
  {
    EqualKeysEqualFilters(f, g, now, later, format);
    NormalizingIsIdempotent(f, now, t);
    NormalizingIsIdempotent(g, later, u);
    SameConditions(Normalized(f, now), Normalized(g, later));
  }

  lemma SameConditions(m: Filters, n: Filters)
    requires m == n.(cacheOnly := m.cacheOnly)
    ensures Conditions(m) == Conditions(n)
  {
  }

  lemma {:induction false} JoinConcat(a: seq<string>, b: seq<string>, sep: string)
    requires a != [] && b != []
    ensures Join(a + b, sep) == Join(a, sep) + sep + Join(b, sep)
  {
    if |a| == 1 {
      assert (a + b)[1..] == b;
    } else {
      assert (a + b)[1..] == a[1..] + b && (a + b)[0] == a[0];
      JoinConcat(a[1..], b, sep);
    }
  }

  function Sample(quickSearch: string, uriContains: string): Filters {
    Filters(60, "", "", 0, "", quickSearch, uriContains, "", "", "", 1, 2, false, true)
  }

  lemma SampleIsNormal(quickSearch: string, uriContains: string, now: int)
    requires Trimmed(quickSearch) && Trimmed(uriContains)
    ensures Normalized(Sample(quickSearch, uriContains), now) == Sample(quickSearch, uriContains)
  {
    TrimSpaceTrimmed(quickSearch);
    TrimSpaceTrimmed(uriContains);
    EmptySettles();
    assert TrimSpace("") == "" && ToLower("") == "" && ToUpper("") == "";
  }

  /** Moving a separator from one part into the next leaves the joined text as it is. */
  lemma SeparatorMoves(front: seq<string>, a: string, b: string, c: string, back: seq<string>, sep: string)
    requires front != [] && back != []
    ensures Join(front + [a + sep + b, c] + back, sep) == Join(front + [a, b + sep + c] + back, sep)
  {
    var x, y := [a + sep + b, c], [a, b + sep + c];
    JoinConcat(front + x, back, sep);
    JoinConcat(front + y, back, sep);
    JoinConcat(front, x, sep);
    JoinConcat(front, y, sep);
    SeparatorMovesOnce(a, b, c, sep);
  }

  lemma SeparatorMovesOnce(a: string, b: string, c: string, sep: string)
    ensures Join([a + sep + b, c], sep) == Join([a, b + sep + c], sep)
  {
    assert [a + sep + b, c][1..] == [c] && [a, b + sep + c][1..] == [b + sep + c];
    assert (a + sep + b) + sep + c == a + sep + (b + sep + c);
  }

  lemma SampleParts(a: string, b: string, c: string, format: int -> string)
    ensures Join(KeyParts(Sample(a + [SEPARATOR] + b, c), format), [SEPARATOR])
            == Join(KeyParts(Sample(a, b + [SEPARATOR] + c), format), [SEPARATOR])
  {
    var f, g := Sample(a + [SEPARATOR] + b, c), Sample(a, b + [SEPARATOR] + c);
    var front, back := KeyParts(f, format)[..5], KeyParts(f, format)[7..];
    assert KeyParts(f, format) == front + [a + [SEPARATOR] + b, c] + back;
    assert KeyParts(g, format) == front + [a, b + [SEPARATOR] + c] + back;
    SeparatorMoves(front, a, b, c, back, [SEPARATOR]);
  }

  lemma SampleArgs(quickSearch: string, uriContains: string)
    requires quickSearch != ""
    ensures var args := Args(Conditions(Sample(quickSearch, uriContains))); |args| > 2 && args[2] == Like(quickSearch)
  {
    var cs := Conditions(Sample(quickSearch, uriContains));
    assert cs[2].1[0] == Like(quickSearch);
    assert Args(cs) == cs[0].1 + Args(cs[1..]) && Args(cs[1..]) == cs[1..][0].1 + Args(cs[1..][1..]);
    assert Args(cs[1..][1..]) == cs[1..][1..][0].1 + Args(cs[1..][1..][1..]);
  }

  /** With the separator in a text two filters can share a key and ask different queries. */
  lemma SeparatorCollides(now: int, format: int -> string)
    ensures var f, g := Sample("a" + [SEPARATOR] + "b", "c"), Sample("a", "b" + [SEPARATOR] + "c");
            Key(f, now, format) == Key(g, now, format) && Where(f, now) != Where(g, now)
  {
    var p, q := "a" + [SEPARATOR] + "b", "b" + [SEPARATOR] + "c";
    SampleIsNormal(p, "c", now);
    SampleIsNormal("a", q, now);
    SampleParts("a", "b", "c", format);
    SampleArgs(p, "c");
    SampleArgs("a", q);
    assert Like(p).text[2] == SEPARATOR && Like("a").text[2] == '%';
  }

  /** Any filters with these texts that share a key ask the same query, whenever they are keyed
      and whenever they ask. */
  ghost predicate KeysDecide(ok: char -> bool, format: int -> string) {
    forall f: Filters, g: Filters, now: int, later: int, t: int, u: int
      | Uses(f, ok) && Uses(g, ok) && now != 0 && later != 0 && Key(f, now, format) == Key(g, later, format)
      :: Where(Normalized(f, now), t) == Where(Normalized(g, later), u)
  }

  lemma UsesIsFree(f: Filters, ok: char -> bool)
    requires Uses(f, ok) && !ok(SEPARATOR)
    ensures Free(f)
  {
  }

  /** The key decides the query exactly for texts that cannot hold the separator. */
  lemma KeysDecideIff(ok: char -> bool, format: int -> string)
    requires GoodFormat(format)
    ensures KeysDecide(ok, format) <==> !ok(SEPARATOR)
  {
    if ok(SEPARATOR) {
      SeparatorAlone(ok, format);
    } else {
      forall f: Filters, g: Filters, now: int, later: int, t: int, u: int
        | Uses(f, ok) && Uses(g, ok) && now != 0 && later != 0 && Key(f, now, format) == Key(g, later, format)
        ensures Where(Normalized(f, now), t) == Where(Normalized(g, later), u)
      {
        UsesIsFree(f, ok);
        UsesIsFree(g, ok);
        EqualKeysSameQuery(f, g, now, later, format, t, u);
      }
    }
  }

  /** A separator searched for everywhere, and one searched for in the addresses alone. */
  lemma SeparatorAlone(ok: char -> bool, format: int -> string)
    requires ok(SEPARATOR)
    ensures !KeysDecide(ok, format)
  {
    var f, g := Sample([SEPARATOR], ""), Sample("", [SEPARATOR]);
    SampleKeys(format);
    SampleQueries(1);
    assert Uses(f, ok) && Uses(g, ok);
    assert Where(Normalized(f, 1), 1) != Where(Normalized(g, 1), 1);
  }

  lemma SampleKeys(format: int -> string)
    ensures Key(Sample([SEPARATOR], ""), 1, format) == Key(Sample("", [SEPARATOR]), 1, format)
  {
    var sep := [SEPARATOR];
    SampleIsNormal(sep, "", 1);
    SampleIsNormal("", sep, 1);
    SampleParts("", "", "", format);
    assert "" + sep + "" == sep;
  }

  lemma SampleQueries(now: int)
    ensures var f, g := Sample([SEPARATOR], ""), Sample("", [SEPARATOR]);
            Where(Normalized(f, now), now) != Where(Normalized(g, now), now)
  {
    SampleIsNormal([SEPARATOR], "", now);
    SampleIsNormal("", [SEPARATOR], now);
    SampleArgCounts([SEPARATOR]);
  }

  lemma {:induction false} ArgsLonger(cs: seq<(string, seq<Arg>)>, i: nat)
    requires i < |cs|
    ensures |Args(cs)| >= |cs[i].1|
  {
    if i > 0 {
      ArgsLonger(cs[1..], i - 1);
    }
  }

  lemma {:induction false} OneArgEach(cs: seq<(string, seq<Arg>)>)
    requires forall i :: 0 <= i < |cs| ==> |cs[i].1| == 1
    ensures |Args(cs)| == |cs|
  {
    if cs != [] {
      OneArgEach(cs[1..]);
    }
  }

  lemma SampleArgCounts(s: string)
    requires s != ""
    ensures |Args(Conditions(Sample(s, "")))| > 3 == |Args(Conditions(Sample("", s)))|
  {
    ArgsLonger(Conditions(Sample(s, "")), 2);
    OneArgEach(Conditions(Sample("", s)));
  }

  // ---------- The cache

  datatype Entry<D> = Entry(snapshot: D, expiresAt: int)

  type Cache<D> = map<string, Entry<D>>

  function Unexpired<D>(cache: Cache<D>, now: int): Cache<D> {
    map k | k in cache && now <= cache[k].expiresAt :: cache[k]
  }

  /** `setCachedSnapshot`: a full cache loses its expired entries or, if all are live, one `victim`. */
  function Put<D>(cache: Cache<D>, key: string, snapshot: D, now: int, victim: string): Cache<D> {
    var room :=
      if |cache| < CAPACITY then cache
      else if |Unexpired(cache, now)| < CAPACITY then Unexpired(cache, now)
      else Unexpired(cache, now) - {victim};
    room[key := Entry(snapshot, now + TTL)]
  }

  /** A store puts its snapshot under its key, for five seconds; of the others it can drop only what
      has expired and, where all of a full cache is live, the victim. */
  lemma PutIs<D>(cache: Cache<D>, key: string, snapshot: D, now: int, victim: string, k: string)
    ensures var after := Put(cache, key, snapshot, now, victim);
            && key in after && after[key] == Entry(snapshot, now + 5_000_000_000)
            && (k in after && k != key ==> k in cache && after[k] == cache[k])
            && (k in cache && k !in after ==>
                  && |cache| >= 128
                  && (cache[k].expiresAt < now || (k == victim && |Unexpired(cache, now)| >= 128)))
  {
  }

  lemma PutFits<D>(cache: Cache<D>, key: string, snapshot: D, now: int, victim: string)
    requires |cache| <= CAPACITY && (|Unexpired(cache, now)| >= CAPACITY ==> victim in Unexpired(cache, now))
    ensures |Put(cache, key, snapshot, now, victim)| <= CAPACITY
  {
    var live := Unexpired(cache, now);
    SubMapSize(live, cache);
    if |cache| >= CAPACITY && |live| >= CAPACITY {
      assert (live - {victim}).Keys == live.Keys - {victim};
      assert |(live - {victim}).Keys| == |live| - 1;
      InsertSize(live - {victim}, key, Entry(snapshot, now + TTL));
    } else if |cache| >= CAPACITY {
      InsertSize(live, key, Entry(snapshot, now + TTL));
    } else {
      InsertSize(cache, key, Entry(snapshot, now + TTL));
    }
  }

  lemma SubMapSize<K, V>(a: map<K, V>, b: map<K, V>)
    requires a.Keys <= b.Keys
    ensures |a| <= |b|
  {
    SubSetSize(a.Keys, b.Keys);
    assert |a.Keys| == |a| && |b.Keys| == |b|;
  }

  lemma {:induction false} SubSetSize<K>(a: set<K>, b: set<K>)
    requires a <= b
    ensures |a| <= |b|
  {
    if a != {} {
      var x :| x in a;
      SubSetSize(a - {x}, b - {x});
    }
  }

  lemma InsertSize<K, V>(m: map<K, V>, k: K, v: V)
    ensures |m[k := v]| <= |m| + 1
  {
    assert m[k := v].Keys == m.Keys + {k};
    assert |m[k := v]| == |m[k := v].Keys| && |m| == |m.Keys|;
  }

  // ---------- Runs

  /** What happens to the cache, each under its lock: an entry found expired is dropped, or the
      snapshot built for a request is put in. */
  datatype Event<Q, D> =
    | Drop(key: string)
    | Store(request: Q, snapshot: D, now: int, victim: string)

  predicate Proper<Q, D>(cache: Cache<D>, e: Event<Q, D>) {
    e.Store? && |Unexpired(cache, e.now)| >= CAPACITY ==> e.victim in Unexpired(cache, e.now)
  }

  function Step<Q, D>(cache: Cache<D>, e: Event<Q, D>, keyOf: Q -> string): Cache<D> {
    match e
    case Drop(key) => cache - {key}
    case Store(request, snapshot, now, victim) => Put(cache, keyOf(request), snapshot, now, victim)
  }

  function Run<Q, D>(events: seq<Event<Q, D>>, keyOf: Q -> string): Cache<D> {
    if events == [] then map[] else Step(Run(events[..|events| - 1], keyOf), events[|events| - 1], keyOf)
  }

  predicate ProperRun<Q, D>(events: seq<Event<Q, D>>, keyOf: Q -> string) {
    events == [] ||
    (ProperRun(events[..|events| - 1], keyOf) && Proper(Run(events[..|events| - 1], keyOf), events[|events| - 1]))
  }

  /** Event `i` put this entry in. */
  ghost predicate PutBy<Q, D>(events: seq<Event<Q, D>>, i: nat, key: string, e: Entry<D>, keyOf: Q -> string) {
    && i < |events| && events[i].Store? && keyOf(events[i].request) == key
    && e == Entry(events[i].snapshot, events[i].now + TTL)
  }

  /** In every interleaving of lookups and stores, whatever entry is evicted: the cache holds at
      most 128 entries ... */
  lemma {:induction false} EveryRunFits<Q, D>(events: seq<Event<Q, D>>, keyOf: Q -> string)
    requires ProperRun(events, keyOf)
    ensures |Run(events, keyOf)| <= CAPACITY
  {
    if events != [] {
      var init, e := events[..|events| - 1], events[|events| - 1];
      EveryRunFits(init, keyOf);
      if e.Store? {
        PutFits(Run(init, keyOf), keyOf(e.request), e.snapshot, e.now, e.victim);
      } else {
        SubMapSize(Run(events, keyOf), Run(init, keyOf));
      }
    }
  }

  lemma PutKeeps<D>(cache: Cache<D>, key: string, snapshot: D, now: int, victim: string, k: string)
    requires k != key && k in Put(cache, key, snapshot, now, victim)
    ensures k in cache && Put(cache, key, snapshot, now, victim)[k] == cache[k]
  {
  }

  /** ... and each was put in under its key. */
  lemma {:induction false} EveryEntryWasPut<Q, D>(events: seq<Event<Q, D>>, keyOf: Q -> string, k: string)
    returns (i: nat)
    requires k in Run(events, keyOf)
    ensures PutBy(events, i, k, Run(events, keyOf)[k], keyOf)
  {
    var init, e := events[..|events| - 1], events[|events| - 1];
    if e.Store? && k == keyOf(e.request) {
      i := |events| - 1;
    } else {
      if e.Store? {
        PutKeeps(Run(init, keyOf), keyOf(e.request), e.snapshot, e.now, e.victim, k);
      }
      i := EveryEntryWasPut(init, keyOf, k);
    }
  }

  /** Filters and the time they were normalised at. */
  datatype Request = Request(filters: Filters, at: int)

  predicate Usual(r: Request) {
    Free(r.filters) && r.at != 0
  }

  /** A hit returns a snapshot that was put in at most 5 seconds ago for a request asking the same
      query. */
  lemma HitAnswersSameQuery<D>(events: seq<Event<Request, D>>, keyOf: Request -> string, format: int -> string,
                               r: Request, now: int, t: int) returns (i: nat)
    requires GoodFormat(format) && forall q :: keyOf(q) == Key(q.filters, q.at, format)
    requires Usual(r) && forall j :: 0 <= j < |events| && events[j].Store? ==> Usual(events[j].request)
    requires keyOf(r) in Run(events, keyOf) && now <= Run(events, keyOf)[keyOf(r)].expiresAt
    ensures i < |events| && events[i].Store? && events[i].snapshot == Run(events, keyOf)[keyOf(r)].snapshot
    ensures now <= events[i].now + TTL
    ensures Where(Normalized(events[i].request.filters, events[i].request.at), t)
            == Where(Normalized(r.filters, r.at), t)
  {
    i := EveryEntryWasPut(events, keyOf, keyOf(r));
    var q := events[i].request;
    RequestsAgree(q, r, keyOf, format, t);
  }

  lemma RequestsAgree(q: Request, r: Request, keyOf: Request -> string, format: int -> string, t: int)
    requires GoodFormat(format) && Usual(q) && Usual(r) && keyOf(q) == keyOf(r)
    requires keyOf(q) == Key(q.filters, q.at, format) && keyOf(r) == Key(r.filters, r.at, format)
    ensures Where(Normalized(q.filters, q.at), t) == Where(Normalized(r.filters, r.at), t)
  {
    EqualKeysSameQuery(q.filters, r.filters, q.at, r.at, format, t, t);
  }

  // ---------- The service

  function Found<D>(cache: Cache<D>, key: string, now: int): Option<D> {
    if key in cache && now <= cache[key].expiresAt then Some(cache[key].snapshot) else None
  }

  /** A snapshot as it is answered: the flag is the asker's own. */
  datatype Answer<D> = Answer(data: D, cacheOnly: bool)

  class SnapshotService<D(==)> {
    var snapshotCache: Cache<D>

    constructor ()
      ensures snapshotCache == map[]
    {
      snapshotCache := map[];
    }

    method GetCachedSnapshot(key: string, now: int) returns (hit: Option<D>)
      modifies this
      ensures hit == Found(old(snapshotCache), key, now)
      ensures snapshotCache == if hit.None? then old(snapshotCache) - {key} else old(snapshotCache)
    {
      if key !in snapshotCache {
        return None;
      }
      var entry := snapshotCache[key];
      if now > entry.expiresAt {
        snapshotCache := snapshotCache - {key};
        return None;
      }
      return Some(entry.snapshot);
    }

    method SetCachedSnapshot(key: string, snapshot: D, now: int) returns (victim: string)
      modifies this
      ensures snapshotCache == Put(old(snapshotCache), key, snapshot, now, victim)
      ensures |Unexpired(old(snapshotCache), now)| >= CAPACITY ==> victim in Unexpired(old(snapshotCache), now)
    {
      victim := "";
      var cache := snapshotCache;
      if |cache| >= CAPACITY {
        cache := DropExpired(cache, now);
        if |cache| >= CAPACITY {
          victim := AnyKey(cache);
          cache := cache - {victim};
        }
      } else {
        SubMapSize(Unexpired(cache, now), cache);
      }
      snapshotCache := cache[key := Entry(snapshot, now + TTL)];
    }

    /** Looked up twice, built if need be. */
    method Load(key: string, first: int, second: int, built: Option<D>, done: int)
      returns (data: Option<D>, victim: string)
      modifies this
      ensures Loaded(old(snapshotCache), key, first, built, done, data, victim, snapshotCache)
    {
      victim := "";
      data := GetCachedSnapshot(key, first);
      if data.Some? {
        return;
      }
      ghost var missed := snapshotCache;
      data := GetCachedSnapshot(key, second);
      assert data.None? && snapshotCache == missed;
      if built.None? {
        return;
      }
      victim := SetCachedSnapshot(key, built.value, done);
      data := built;
    }

    /** `Snapshot`: the answer is a live entry under the key of the filters, or the snapshot just
        built, which is then in the cache for 5 seconds; the flag is the asker's. */
    method Snapshot(f: Filters, asked: int, first: int, second: int, built: Option<D>, done: int, format: int -> string)
      returns (answer: Option<Answer<D>>, victim: string)
      requires asked != 0
      modifies this
      ensures var data := if answer.None? then None else Some(answer.value.data);
              Loaded(old(snapshotCache), Key(f, asked, format), first, built, done, data, victim, snapshotCache)
      ensures answer.Some? ==> answer.value.cacheOnly == f.cacheOnly
    {
      var normalized := Normalized(f, asked);
      NormalizingIsIdempotent(f, asked, asked);
      var data;
      data, victim := Load(Key(normalized, asked, format), first, second, built, done);
      answer := if data.None? then None else Some(Answer(data.value, normalized.cacheOnly));
    }
  }

  /** A live entry is returned as it is; otherwise the entry goes, and what was built comes in. */
  ghost predicate Loaded<D>(before: Cache<D>, key: string, first: int, built: Option<D>, done: int,
                            data: Option<D>, victim: string, after: Cache<D>) {
    var found := Found(before, key, first);
    if found.Some? then data == found && after == before
    else
      var missed := before - {key};
      && data == built
      && if built.None? then after == missed
         else after == Put(missed, key, built.value, done, victim)
              && (|Unexpired(missed, done)| >= CAPACITY ==> victim in Unexpired(missed, done))
  }

  /** The loop that drops what has expired, in any order. */
  method DropExpired<D>(cache: Cache<D>, now: int) returns (left: Cache<D>)
    ensures left == Unexpired(cache, now)
  {
    left := cache;
    var rest := cache.Keys;
    while rest != {}
      invariant rest <= cache.Keys
      invariant left == map k | k in cache && (k in rest || now <= cache[k].expiresAt) :: cache[k]
    {
      var key :| key in rest;
      rest := rest - {key};
      if now > cache[key].expiresAt {
        left := left - {key};
      }
    }
  }

  method AnyKey<K, V>(m: map<K, V>) returns (k: K)
    requires |m| > 0
    ensures k in m
  {
    assert |m.Keys| == |m|;
    k :| k in m.Keys;
  }
}
