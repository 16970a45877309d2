/** What the clause of the analytics query selects: each condition read as the database reads it. */
module SnapshotQuery {
  import opened Text
  import opened SnapshotCache

  type Condition = (string, seq<Arg>)

  /** A row of the access log. */
  datatype LogRow = LogRow(time: int, host: string, verb: string, status: int, uri: string, remoteAddr: string)

  /** How the database compares texts, matches patterns, trims, and matches the provider known for an
      address. */
  datatype Sql = Sql(same: (string, string) -> bool, like: (string, string) -> bool, trim: string -> string,
                     isp: (string, string) -> bool)

  // ---------- Conditions by their text

  ghost predicate OneInstant(args: seq<Arg>, p: int -> bool) {
    |args| == 1 && args[0].Instant? && p(args[0].at)
  }

  ghost predicate OneNumber(args: seq<Arg>, p: int -> bool) {
    |args| == 1 && args[0].Number? && p(args[0].n)
  }

  ghost predicate OneWord(args: seq<Arg>, p: string -> bool) {
    |args| == 1 && args[0].Word? && p(args[0].text)
  }

  ghost predicate TwoNumbers(args: seq<Arg>, p: (int, int) -> bool) {
    |args| == 2 && args[0].Number? && args[1].Number? && p(args[0].n, args[1].n)
  }

  /** The text with five placeholders, each compared in its own way. */
  ghost predicate FiveWords(args: seq<Arg>, r: LogRow, sql: Sql) {
    && |args| == 5 && (forall i :: 0 <= i < 5 ==> args[i].Word?)
    && (sql.like(r.host, args[0].text) || sql.like(r.uri, args[1].text) || sql.like(r.verb, args[2].text)
        || sql.like(sql.trim(r.remoteAddr), args[3].text) || sql.isp(sql.trim(r.remoteAddr), args[4].text))
  }

  /** A condition with its arguments on a row. */
  ghost predicate Holds(text: string, args: seq<Arg>, r: LogRow, sql: Sql) {
    if text == "`time` >= ?" then OneInstant(args, at => r.time >= at)
    else if text == "`time` <= ?" then OneInstant(args, at => r.time <= at)
    else if text == "host = ?" then OneWord(args, w => sql.same(r.host, w))
    else if text == "method = ?" then OneWord(args, w => sql.same(r.verb, w))
    else if text == "status = ?" then OneNumber(args, n => r.status == n)
    else if text == "status BETWEEN ? AND ?" then TwoNumbers(args, (a, b) => a <= r.status <= b)
    else if text == "uri LIKE ?" then OneWord(args, w => sql.like(r.uri, w))
    else if text == "remote_addr LIKE ?" then OneWord(args, w => sql.like(r.remoteAddr, w))
    else if text == "uri NOT LIKE ?" then OneWord(args, w => !sql.like(r.uri, w))
    else if text == QUICK then FiveWords(args, r, sql)
    else if text == GEO then OneWord(args, w => sql.isp(sql.trim(r.remoteAddr), w))
    else false
  }

  lemma TimeHolds(at: int, r: LogRow, sql: Sql)
    ensures Holds("`time` >= ?", [Instant(at)], r, sql) <==> at <= r.time
    ensures Holds("`time` <= ?", [Instant(at)], r, sql) <==> r.time <= at
  {
    assert "`time` >= ?"[7] == '>' && "`time` <= ?"[7] == '<';
  }

  lemma HostHolds(w: string, r: LogRow, sql: Sql)
    ensures Holds("host = ?", [Word(w)], r, sql) <==> sql.same(r.host, w)
  {
    assert |"host = ?"| == 8 && |"`time` >= ?"| == |"`time` <= ?"| == 11;
  }

  lemma VerbHolds(w: string, r: LogRow, sql: Sql)
    ensures Holds("method = ?", [Word(w)], r, sql) <==> sql.same(r.verb, w)
  {
    assert |"method = ?"| == 10 && |"host = ?"| == 8 && |"`time` >= ?"| == |"`time` <= ?"| == 11;
  }

  lemma ShortTexts()
    ensures |"`time` >= ?"| == |"`time` <= ?"| == 11 && |"host = ?"| == 8
    ensures "method = ?"[0] == 'm' && "status = ?"[0] == 's' && "uri LIKE ?"[0] == 'u' && |"uri LIKE ?"| == 10
    ensures |"method = ?"| == |"status = ?"| == 10 && |"status BETWEEN ? AND ?"| == 22
    ensures |"remote_addr LIKE ?"| == 18 && |"uri NOT LIKE ?"| == 14
  {
  }

  lemma LongTexts()
    ensures |GEO| > 22 && |QUICK| > |GEO|
  {
    assert |"EXISTS (SELECT 1 FROM ip_geolocation geo WHERE geo.ip = "| > 22;
  }

  lemma StatusHolds(n: int, r: LogRow, sql: Sql)
    ensures Holds("status = ?", [Number(n)], r, sql) <==> r.status == n
  {
    ShortTexts();
  }

  lemma ClassHolds(a: int, b: int, r: LogRow, sql: Sql)
    ensures Holds("status BETWEEN ? AND ?", [Number(a), Number(b)], r, sql) <==> a <= r.status <= b
  {
    ShortTexts();
  }

  lemma UriHolds(w: string, r: LogRow, sql: Sql)
    ensures Holds("uri LIKE ?", [Word(w)], r, sql) <==> sql.like(r.uri, w)
  {
    ShortTexts();
  }

  lemma AddrHolds(w: string, r: LogRow, sql: Sql)
    ensures Holds("remote_addr LIKE ?", [Word(w)], r, sql) <==> sql.like(r.remoteAddr, w)
  {
    ShortTexts();
  }

  lemma NotUriHolds(w: string, r: LogRow, sql: Sql)
    ensures Holds("uri NOT LIKE ?", [Word(w)], r, sql) <==> !sql.like(r.uri, w)
  {
    ShortTexts();
  }

  lemma QuickHolds(args: seq<Arg>, r: LogRow, sql: Sql)
    ensures Holds(QUICK, args, r, sql) <==> FiveWords(args, r, sql)
  {
    ShortTexts();
    LongTexts();
  }

  lemma GeoHolds(w: string, r: LogRow, sql: Sql)
    ensures Holds(GEO, [Word(w)], r, sql) <==> sql.isp(sql.trim(r.remoteAddr), w)
  {
    ShortTexts();
    LongTexts();
  }

  // ---------- The conjunction

  ghost predicate AllHold(cs: seq<Condition>, r: LogRow, sql: Sql) {
    forall i :: 0 <= i < |cs| ==> Holds(cs[i].0, cs[i].1, r, sql)
  }

  lemma AppendHolds(cs: seq<Condition>, wanted: bool, text: string, args: seq<Arg>, r: LogRow, sql: Sql)
    ensures AllHold(cs + (if wanted then [(text, args)] else []), r, sql)
            <==> AllHold(cs, r, sql) && (wanted ==> Holds(text, args, r, sql))
  {
    var all := cs + if wanted then [(text, args)] else [];
    assert forall i :: 0 <= i < |cs| ==> all[i] == cs[i];
    if wanted {
      assert all[|cs|] == (text, args);
    }
  }

  /** What the normalised filters ask of a row. */
  ghost predicate Selects(n: Filters, r: LogRow, sql: Sql) {
    && n.from <= r.time <= n.to
    && (n.host != "" ==> sql.same(r.host, n.host)) && (n.verb != "" ==> sql.same(r.verb, n.verb))
    && (n.status > 0 ==> r.status == n.status)
    && (n.statusClass != "" ==> var c := (n.statusClass[0] as int - '0' as int) * 100; c <= r.status < c + 100)
    && (n.quickSearch != "" ==> Searched(r, sql, "%" + n.quickSearch + "%"))
    && (n.uriContains != "" ==> sql.like(r.uri, "%" + n.uriContains + "%"))
    && (n.ipContains != "" ==> sql.like(r.remoteAddr, "%" + n.ipContains + "%"))
    && (n.ispContains != "" ==> sql.isp(sql.trim(r.remoteAddr), "%" + n.ispContains + "%"))
    && (!n.includeInternalApi ==> !sql.like(r.uri, "/api/%"))
  }

  /** One pattern looked for in host, URI, method, address and provider. */
  ghost predicate Searched(r: LogRow, sql: Sql, pattern: string) {
    || sql.like(r.host, pattern) || sql.like(r.uri, pattern) || sql.like(r.verb, pattern)
    || sql.like(sql.trim(r.remoteAddr), pattern) || sql.isp(sql.trim(r.remoteAddr), pattern)
  }

  lemma SearchHolds(s: string, r: LogRow, sql: Sql)
    ensures Holds(QUICK, seq(5, _ => Like(s)), r, sql) <==> Searched(r, sql, "%" + s + "%")
  {
    QuickHolds(seq(5, _ => Like(s)), r, sql);
  }

  lemma ClassBoundsHold(statusClass: string, r: LogRow, sql: Sql)
    requires statusClass != ""
    ensures Holds("status BETWEEN ? AND ?", ClassBounds(statusClass), r, sql)
            <==> var c := (statusClass[0] as int - '0' as int) * 100; c <= r.status < c + 100
  {
    var c := (statusClass[0] as int - '0' as int) * 100;
    ClassHolds(c, c + 99, r, sql);
  }

  function First(n: Filters): seq<Condition> {
    [("`time` >= ?", [Instant(n.from)]), ("`time` <= ?", [Instant(n.to)])]
  }

  function Second(n: Filters, cs: seq<Condition>): seq<Condition> {
    cs + (if n.host != "" then [("host = ?", [Word(n.host)])] else [])
    + (if n.verb != "" then [("method = ?", [Word(n.verb)])] else [])
    + (if n.status > 0 then [("status = ?", [Number(n.status)])] else [])
    + (if n.statusClass != "" then [("status BETWEEN ? AND ?", ClassBounds(n.statusClass))] else [])
  }

  function Third(n: Filters, cs: seq<Condition>): seq<Condition> {
    cs + (if n.quickSearch != "" then [(QUICK, seq(5, _ => Like(n.quickSearch)))] else [])
    + (if n.uriContains != "" then [("uri LIKE ?", [Like(n.uriContains)])] else [])
    + (if n.ipContains != "" then [("remote_addr LIKE ?", [Like(n.ipContains)])] else [])
    + (if n.ispContains != "" then [(GEO, [Like(n.ispContains)])] else [])
    + (if !n.includeInternalApi then [("uri NOT LIKE ?", [Word("/api/%")])] else [])
  }

  lemma InThreeParts(n: Filters)
    ensures Conditions(n) == Third(n, Second(n, First(n)))
  {
  }

  lemma FirstHolds(n: Filters, r: LogRow, sql: Sql)
    ensures AllHold(First(n), r, sql) <==> n.from <= r.time <= n.to
  {
    TimeHolds(n.from, r, sql);
    TimeHolds(n.to, r, sql);
    var cs := First(n);
    assert cs[0] == ("`time` >= ?", [Instant(n.from)]) && cs[1] == ("`time` <= ?", [Instant(n.to)]);
  }

  lemma SecondHolds(n: Filters, cs: seq<Condition>, r: LogRow, sql: Sql)
    ensures AllHold(Second(n, cs), r, sql) <==>
              && AllHold(cs, r, sql)
              && (n.host != "" ==> sql.same(r.host, n.host)) && (n.verb != "" ==> sql.same(r.verb, n.verb))
              && (n.status > 0 ==> r.status == n.status)
              && (n.statusClass != "" ==>
                 var c := (n.statusClass[0] as int - '0' as int) * 100; c <= r.status < c + 100)
  {
    HostHolds(n.host, r, sql);
    VerbHolds(n.verb, r, sql);
    StatusHolds(n.status, r, sql);
    if n.statusClass != "" {
      ClassBoundsHold(n.statusClass, r, sql);
    }
    FourAppended(cs, n.host != "", "host = ?", [Word(n.host)], n.verb != "", "method = ?", [Word(n.verb)],
                 n.status > 0, "status = ?", [Number(n.status)],
                 n.statusClass != "", "status BETWEEN ? AND ?", ClassBounds(n.statusClass), r, sql);
  }

  lemma FourAppended(cs: seq<Condition>, p: bool, a: string, x: seq<Arg>, q: bool, b: string, y: seq<Arg>,
                     s: bool, c: string, z: seq<Arg>, t: bool, d: string, w: seq<Arg>, r: LogRow, sql: Sql)
    ensures AllHold(cs + (if p then [(a, x)] else []) + (if q then [(b, y)] else [])
                    + (if s then [(c, z)] else []) + (if t then [(d, w)] else []), r, sql)
            <==> && AllHold(cs, r, sql) && (p ==> Holds(a, x, r, sql)) && (q ==> Holds(b, y, r, sql))
                 && (s ==> Holds(c, z, r, sql)) && (t ==> Holds(d, w, r, sql))
  {
    var one := cs + if p then [(a, x)] else [];
    var two := one + if q then [(b, y)] else [];
    var three := two + if s then [(c, z)] else [];
    AppendHolds(cs, p, a, x, r, sql);
    AppendHolds(one, q, b, y, r, sql);
    AppendHolds(two, s, c, z, r, sql);
    AppendHolds(three, t, d, w, r, sql);
  }

  lemma ThirdHolds(n: Filters, cs: seq<Condition>, r: LogRow, sql: Sql)
    ensures AllHold(Third(n, cs), r, sql) <==>
              && AllHold(cs, r, sql)
              && (n.quickSearch != "" ==> Searched(r, sql, "%" + n.quickSearch + "%"))
              && (n.uriContains != "" ==> sql.like(r.uri, "%" + n.uriContains + "%"))
              && (n.ipContains != "" ==> sql.like(r.remoteAddr, "%" + n.ipContains + "%"))
              && (n.ispContains != "" ==> sql.isp(sql.trim(r.remoteAddr), "%" + n.ispContains + "%"))
              && (!n.includeInternalApi ==> !sql.like(r.uri, "/api/%"))
  {
    SearchHolds(n.quickSearch, r, sql);
    UriHolds("%" + n.uriContains + "%", r, sql);
    AddrHolds("%" + n.ipContains + "%", r, sql);
    GeoHolds("%" + n.ispContains + "%", r, sql);
    NotUriHolds("/api/%", r, sql);
    var four := cs + (if n.quickSearch != "" then [(QUICK, seq(5, _ => Like(n.quickSearch)))] else [])
                + (if n.uriContains != "" then [("uri LIKE ?", [Like(n.uriContains)])] else [])
                + (if n.ipContains != "" then [("remote_addr LIKE ?", [Like(n.ipContains)])] else [])
                + (if n.ispContains != "" then [(GEO, [Like(n.ispContains)])] else []);
    FourAppended(cs, n.quickSearch != "", QUICK, seq(5, _ => Like(n.quickSearch)),
                 n.uriContains != "", "uri LIKE ?", [Like(n.uriContains)],
                 n.ipContains != "", "remote_addr LIKE ?", [Like(n.ipContains)],
                 n.ispContains != "", GEO, [Like(n.ispContains)], r, sql);
    AppendHolds(four, !n.includeInternalApi, "uri NOT LIKE ?", [Word("/api/%")], r, sql);
  }

  /** The conditions of the clause hold of exactly the rows the filters ask for. */
  lemma ConditionsSelect(n: Filters, r: LogRow, sql: Sql)
    ensures AllHold(Conditions(n), r, sql) <==> Selects(n, r, sql)
  {
    InThreeParts(n);
    FirstHolds(n, r, sql);
    SecondHolds(n, First(n), r, sql);
    ThirdHolds(n, Second(n, First(n)), r, sql);
  }

  /** The window of time: in order; the ends given, or a missing one filled in from the other or
      from now. */
  lemma WindowIs(from: int, to: int, minutes: int, now: int)
    requires minutes > 0
    ensures var (a, b) := Window(from, to, minutes, now);
            && a <= b
            && (from != 0 && to != 0 ==> {a, b} == {from, to})
            && (from == 0 && to == 0 ==> b == now && b - a == minutes * 60_000_000_000)
            && (from == 0 && to != 0 ==> b == to && b - a == minutes * 60_000_000_000)
            && (from != 0 && to == 0 ==> {a, b} == {from, now})
  {
  }

  /** Without a range of its own a request looks back an hour. */
  lemma UsualRange(f: Filters, now: int)
    requires f.rangeMinutes <= 0 && f.from == 0 && f.to == 0
    ensures var n := Normalized(f, now); n.to == now && n.to - n.from == 60 * 60_000_000_000
  {
  }

  /** A status class is a digit from 1 to 5 followed by `xx`, in any case; any other text is none. */
  lemma StatusClassIs(raw: string, t: string)
    requires t == ToLower(TrimSpace(raw))
    ensures StatusClass(raw)
            == if |t| == 3 && '1' <= t[0] <= '5' && t[1] == 'x' && t[2] == 'x' then t else ""
  {
    if |t| == 3 {
      assert t == [t[0], t[1], t[2]];
    }
  }
}
