/** When printing, importing and printing again gives the same text. */
module NginxFixedPoint {
  import opened Text
  import opened NginxScanner
  import opened NginxLines
  import opened NginxLayout
  import opened NginxQuoting
  import opened NginxSites
  import opened NginxParts
  import opened NginxReading
  import opened NginxSearching
  import opened NginxSockets
  import opened NginxRoundTrip

  /** With TLS on, both TLS include paths are given. */
  predicate TlsPathsSet(s: Site) {
    s.ssl ==> s.sslConfigPath != "" && s.sslDhParamPath != ""
  }

  /** A printed cache control holds no character that is escaped. */
  predicate CacheIsUnescaped(s: Site) {
    s.staticAliasPath != "" ==> Unescaped(s.staticCacheControl)
  }

  // ---------- Texts that agree

  /** Two texts put together agree exactly when the pieces do, none being shorter. */
  lemma Cancels(a: string, b: string, c: string, d: string)
    requires |a| >= |c| && |b| >= |d|
    ensures a + b == c + d <==> a == c && b == d
  {
    if a + b == c + d {
      assert (a + b)[..|a|] == a && (c + d)[..|c|] == c;
      assert (a + b)[|a|..] == b && (c + d)[|c|..] == d;
    }
  }

  lemma TwoCancel(a: string, x: string, c: string, y: string, e: string, u: string, v: string)
    requires |x| >= |u| && |y| >= |v|
    ensures a + (x + (c + (y + e))) == a + (u + (c + (v + e))) <==> x == u && y == v
  {
    Cancels(y, e, v, e);
    Cancels(c, y + e, c, v + e);
    Cancels(x, c + (y + e), u, c + (v + e));
    Cancels(a, x + (c + (y + e)), a, u + (c + (v + e)));
  }

  lemma FlatOfEight(parts: seq<seq<Line>>)
    requires |parts| == 8
    ensures Flat(parts) == parts[0] + (parts[1] + (Flat(parts[2..4]) + (parts[4] + Flat(parts[5..]))))
  {
    FlatSplit(parts, 4);
    var four := parts[..4];
    FlatSplit(four, 1);
    assert four[..1] == [parts[0]] && four[2..] == parts[2..4];
    assert Flat([parts[0]]) == parts[0] + Flat([parts[0]][1..]) == parts[0];
    Regrouped(parts[0], parts[1], Flat(parts[2..4]), parts[4] + Flat(parts[5..]));
  }

  lemma Regrouped(a: seq<Line>, b: seq<Line>, c: seq<Line>, d: seq<Line>)
    ensures (a + (b + c)) + d == a + (b + (c + d))
  {
  }

  lemma WholeOfEight(parts: seq<seq<Line>>)
    requires |parts| == 8
    ensures Whole(Flat(parts))
            == Whole(parts[0])
              + (Whole(parts[1]) + (Whole(Flat(parts[2..4])) + (Whole(parts[4]) + Whole(Flat(parts[5..])))))
  {
    FlatOfEight(parts);
    var mid, tail := Flat(parts[2..4]), Flat(parts[5..]);
    WholeConcat(parts[4], tail);
    WholeConcat(mid, parts[4] + tail);
    WholeConcat(parts[1], mid + (parts[4] + tail));
    WholeConcat(parts[0], parts[1] + (mid + (parts[4] + tail)));
  }

  /** Two parts of a block come out longer or the same. */
  lemma PartsUpdated(parts: seq<seq<Line>>, x: seq<Line>, y: seq<Line>)
    requires |parts| == 8 && |Whole(x)| >= |Whole(parts[1])| && |Whole(y)| >= |Whole(parts[4])|
    ensures var t, u := Whole(Flat(parts[1 := x][4 := y])), Whole(Flat(parts));
            && |t| >= |u|
            && (t == u <==> Whole(x) == Whole(parts[1]) && Whole(y) == Whole(parts[4]))
  {
    var p := parts[1 := x][4 := y];
    WholeOfEight(parts);
    WholeOfEight(p);
    assert p[2..4] == parts[2..4] && p[5..] == parts[5..];
    TwoCancel(Whole(parts[0]), Whole(x), Whole(Flat(parts[2..4])), Whole(y), Whole(Flat(parts[5..])),
              Whole(parts[1]), Whole(parts[4]));
  }

  lemma BlocksAgree(a: seq<Line>, b: seq<Line>)
    requires |Whole(a)| >= |Whole(b)|
    ensures var t, u := Join(Texts(Block(a)), "\n"), Join(Texts(Block(b)), "\n");
            |t| >= |u| && (t == u <==> Whole(a) == Whole(b))
  {
    BlockIsFramed(a);
    BlockIsFramed(b);
    FramesAgree("server {" + "\n", Whole(a), Whole(b), "}");
    Reframed("server {", "\n", Whole(a), "}");
    Reframed("server {", "\n", Whole(b), "}");
  }

  lemma Reframed(open: string, n: string, w: string, close: string)
    ensures open + (n + w) + close == (open + n) + (w + close)
  {
  }

  lemma FramesAgree(open: string, x: string, y: string, close: string)
    requires |x| >= |y|
    ensures open + (x + close) == open + (y + close) <==> x == y
  {
    Cancels(x, close, y, close);
    Cancels(open, x + close, open, y + close);
  }

  // ---------- One site

  lemma NamesAgain(serverName: string)
    requires Names(serverName) != []
    ensures Names(Join(Names(serverName), " ")) == Names(serverName)
  {
    FieldsAreWords(TrimSpace(serverName), IsSpace, []);
    NamesTrimmed(serverName);
    TrimSpaceTrimmed(Join(Names(serverName), " "));
    FieldsJoin(Names(serverName), IsSpace, ' ');
  }

  lemma HeadAgain(s: Site, idx: nat)
    requires s.listenPort >= 0 && ValidNames(s.serverName)
    ensures Head(Reimported(s, idx)) == Head(s)
  {
    NamesAgain(s.serverName);
  }

  lemma PhpAgain(s: Site, idx: nat)
    ensures PhpMyAdminPart(Reimported(s, idx)) == PhpMyAdminPart(s) && PhpPart(Reimported(s, idx)) == PhpPart(s)
  {
  }

  lemma MainAgain(s: Site, idx: nat)
    ensures MainPart(Reimported(s, idx)) == MainPart(s)
  {
  }

  lemma PartsAgain(s: Site, idx: nat)
    requires Printable(s)
    ensures Parts(Reimported(s, idx)) == Parts(s)[1 := SslPart(Reimported(s, idx))][4 := StaticPart(Reimported(s, idx))]
  {
    HeadAgain(s, idx);
    PhpAgain(s, idx);
    MainAgain(s, idx);
    assert Roots(Reimported(s, idx)) == Roots(s);
    EightUpdated(Head(s), SslPart(s), Headers(), Roots(s), StaticPart(s), PhpMyAdminPart(s), PhpPart(s), MainPart(s),
                 SslPart(Reimported(s, idx)), StaticPart(Reimported(s, idx)));
  }

  lemma EightUpdated(a: seq<Line>, b: seq<Line>, c: seq<Line>, d: seq<Line>, e: seq<Line>, f: seq<Line>, g: seq<Line>,
                     h: seq<Line>, x: seq<Line>, y: seq<Line>)
    ensures [a, x, c, d, y, f, g, h] == [a, b, c, d, e, f, g, h][1 := x][4 := y]
  {
  }

  lemma SettingAgain(word: Word, v: string, u: string)
    requires v != "" ==> u == v
    ensures var a, b := SettingUnlessEmpty(1, word, u), SettingUnlessEmpty(1, word, v);
            |Whole(a)| >= |Whole(b)| && (Whole(a) == Whole(b) <==> u == v)
  {
    if v == "" && u != "" {
      OneLine(Setting(1, word, u));
    }
  }

  lemma TlsPathsAgain(s: Site, idx: nat)
    requires s.ssl
    ensures var r := Reimported(s, idx);
            && r.ssl && r.certPath == s.certPath && r.keyPath == s.keyPath
            && r.sslConfigPath != "" && (s.sslConfigPath != "" ==> r.sslConfigPath == s.sslConfigPath)
            && r.sslDhParamPath != "" && (s.sslDhParamPath != "" ==> r.sslDhParamPath == s.sslDhParamPath)
  {
  }

  lemma WholeOfFour(a: seq<Line>, b: seq<Line>, c: seq<Line>, d: seq<Line>)
    ensures Whole(a + b + c + d) == Whole(a + b) + (Whole(c) + Whole(d))
  {
    WholeOfThree(a + b, c, d);
  }

  lemma WholeOfThree(a: seq<Line>, c: seq<Line>, d: seq<Line>)
    ensures Whole(a + c + d) == Whole(a) + (Whole(c) + Whole(d))
  {
    WholeConcat(a + c, d);
    WholeConcat(a, c);
    Reassociated(Whole(a), Whole(c), Whole(d));
  }

  lemma Reassociated(x: string, y: string, z: string)
    ensures (x + y) + z == x + (y + z)
  {
  }

  lemma FourAgree(a: seq<Line>, b: seq<Line>, c: seq<Line>, d: seq<Line>, x: seq<Line>, y: seq<Line>)
    requires |Whole(x)| >= |Whole(c)| && |Whole(y)| >= |Whole(d)|
    ensures var t, u := Whole(a + b + x + y), Whole(a + b + c + d);
            |t| >= |u| && (t == u <==> Whole(x) == Whole(c) && Whole(y) == Whole(d))
  {
    WholeOfFour(a, b, c, d);
    WholeOfFour(a, b, x, y);
    Cancels(Whole(x), Whole(y), Whole(c), Whole(d));
    Cancels(Whole(a + b), Whole(x) + Whole(y), Whole(a + b), Whole(c) + Whole(d));
  }

  /** The TLS part comes out with the paths that were missing. */
  lemma TlsAgain(s: Site, r: Site, idx: nat)
    requires r == Reimported(s, idx)
    ensures |Whole(SslPart(r))| >= |Whole(SslPart(s))|
    ensures Whole(SslPart(r)) == Whole(SslPart(s)) <==> TlsPathsSet(s)
  {
    if s.ssl {
      TlsPathsAgain(s, idx);
      SettingAgain(Include, s.sslConfigPath, r.sslConfigPath);
      SettingAgain(SslDhParam, s.sslDhParamPath, r.sslDhParamPath);
      FourAgree(SettingUnlessEmpty(1, SslCertificate, s.certPath), SettingUnlessEmpty(1, SslCertificateKey, s.keyPath),
                SettingUnlessEmpty(1, Include, s.sslConfigPath), SettingUnlessEmpty(1, SslDhParam, s.sslDhParamPath),
                SettingUnlessEmpty(1, Include, r.sslConfigPath), SettingUnlessEmpty(1, SslDhParam, r.sslDhParamPath));
    }
  }

  function StaticFront(s: Site): seq<Line> {
    [Stmt(1, Location, STATIC)]
    + ([Setting(2, Alias, s.staticAliasPath)] + [Stmt(2, TryFiles, TRY_FILE)]
       + (if s.accessLogOffStatic then [Stmt(2, AccessLog, "off;")] else [])
       + SettingUnlessEmpty(2, Expires, s.staticExpires))
  }

  lemma StaticSplit(s: Site)
    requires s.staticAliasPath != ""
    ensures StaticPart(s) == StaticFront(s) + (CacheControl(s) + ([Close(1)] + [Blank]))
  {
  }

  lemma CacheLineText(front: string, q: string)
    ensures Spaces(2) + front + " " + ("Cache-Control " + q + ";") + "\n"
            == (Spaces(2) + front + " " + "Cache-Control ") + (q + (";" + "\n"))
  {
  }

  lemma CacheTextIs(s: Site)
    requires s.staticCacheControl != ""
    ensures Whole(CacheControl(s))
            == (Spaces(2) + Spell(AddHeader) + " " + "Cache-Control ") + (Quote(s.staticCacheControl) + (";" + "\n"))
  {
    var l := Setting(2, AddHeader, "Cache-Control " + Quote(s.staticCacheControl));
    OneLine(l);
    CacheLineText(Spell(AddHeader), Quote(s.staticCacheControl));
  }

  lemma CacheTextAgain(s: Site, r: Site)
    requires s.staticCacheControl != "" && r.staticCacheControl == Requoted(s.staticCacheControl) != ""
    ensures |Whole(CacheControl(r))| >= |Whole(CacheControl(s))|
    ensures Whole(CacheControl(r)) == Whole(CacheControl(s)) <==> Unescaped(s.staticCacheControl)
  {
    CacheTextIs(s);
    CacheTextIs(r);
    QuoteAgain(s.staticCacheControl);
    FramesAgree(Spaces(2) + Spell(AddHeader) + " " + "Cache-Control ", Quote(r.staticCacheControl),
                Quote(s.staticCacheControl), ";" + "\n");
  }

  lemma StaticTextIs(s: Site)
    requires s.staticAliasPath != ""
    ensures Whole(StaticPart(s)) == Whole(StaticFront(s)) + (Whole(CacheControl(s)) + Whole([Close(1)] + [Blank]))
  {
    StaticSplit(s);
    WholeConcat(CacheControl(s), [Close(1)] + [Blank]);
    WholeConcat(StaticFront(s), CacheControl(s) + ([Close(1)] + [Blank]));
  }

  /** What a printed static part says, compared with that of another site. */
  lemma StaticTextAgain(s: Site, r: Site)
    requires s.staticAliasPath != "" && r.staticAliasPath == s.staticAliasPath
    requires r.accessLogOffStatic == s.accessLogOffStatic && r.staticExpires == s.staticExpires
    requires s.staticCacheControl != "" && r.staticCacheControl == Requoted(s.staticCacheControl) != ""
    ensures |Whole(StaticPart(r))| >= |Whole(StaticPart(s))|
    ensures Whole(StaticPart(r)) == Whole(StaticPart(s)) <==> Unescaped(s.staticCacheControl)
  {
    assert StaticFront(r) == StaticFront(s);
    StaticTextIs(s);
    StaticTextIs(r);
    CacheTextAgain(s, r);
    FramesAgree(Whole(StaticFront(s)), Whole(CacheControl(r)), Whole(CacheControl(s)), Whole([Close(1)] + [Blank]));
  }

  /** The static part comes out with its escapes escaped. */
  lemma StaticAgain(s: Site, r: Site, idx: nat)
    requires r == Reimported(s, idx) && s.staticCacheControl != "" && Trimmed(s.staticCacheControl)
    ensures |Whole(StaticPart(r))| >= |Whole(StaticPart(s))|
    ensures Whole(StaticPart(r)) == Whole(StaticPart(s)) <==> CacheIsUnescaped(s)
  {
    if s.staticAliasPath != "" {
      RequotedTrimmed(s.staticCacheControl);
      StaticTextAgain(s, r);
    }
  }

  lemma PartsAt(s: Site)
    requires s.listenPort >= 0
    ensures Parts(s)[1] == SslPart(s) && Parts(s)[4] == StaticPart(s)
  {
  }

  /** The two parts that may come out differently, and what decides. */
  lemma PartsComeBack(s: Site, r: Site, idx: nat, ssl: seq<Line>, static_: seq<Line>, x: seq<Line>, y: seq<Line>)
    requires r == Reimported(s, idx) && NormalValues(s)
    requires ssl == SslPart(s) && static_ == StaticPart(s) && x == SslPart(r) && y == StaticPart(r)
    ensures |Whole(x)| >= |Whole(ssl)| && |Whole(y)| >= |Whole(static_)|
    ensures Whole(x) == Whole(ssl) && Whole(y) == Whole(static_) <==> TlsPathsSet(s) && CacheIsUnescaped(s)
  {
    TlsAgain(s, r, idx);
    StaticAgain(s, r, idx);
  }

  lemma BlockUpdated(parts: seq<seq<Line>>, x: seq<Line>, y: seq<Line>)
    requires |parts| == 8 && |Whole(x)| >= |Whole(parts[1])| && |Whole(y)| >= |Whole(parts[4])|
    ensures var t, u := Join(Texts(Block(Flat(parts[1 := x][4 := y]))), "\n"), Join(Texts(Block(Flat(parts))), "\n");
            && |t| >= |u|
            && (t == u <==> Whole(x) == Whole(parts[1]) && Whole(y) == Whole(parts[4]))
  {
    PartsUpdated(parts, x, y);
    BlocksAgree(Flat(parts[1 := x][4 := y]), Flat(parts));
  }

  /** A site is printed the same after its import exactly when its TLS paths are given and its
      cache control holds nothing that is escaped. */
  lemma SiteFixedPoint(s: Site, idx: nat)
    requires Printable(s)
    ensures |BlockText(Reimported(s, idx))| >= |BlockText(s)|
    ensures BlockText(Reimported(s, idx)) == BlockText(s) <==> TlsPathsSet(s) && CacheIsUnescaped(s)
  {
    var r := Reimported(s, idx);
    PartsAt(s);
    PartsAgain(s, idx);
    PartsComeBack(s, r, idx, SslPart(s), StaticPart(s), SslPart(r), StaticPart(r));
    BlockUpdated(Parts(s), SslPart(r), StaticPart(r));
  }

  // ---------- Reimported sites are kept

  lemma TlsValuesAreTrimmed(s: Site, idx: nat)
    requires NormalValues(s)
    ensures var r := Reimported(s, idx);
            Trimmed(r.sslConfigPath) && Trimmed(r.sslDhParamPath) && Trimmed(r.certPath) && Trimmed(r.keyPath)
  {
    DefaultPathsTrimmed();
  }

  lemma DefaultPathsTrimmed()
    ensures Trimmed(SSL_CONFIG) && Trimmed(SSL_DHPARAM) && Trimmed("fastcgi_params")
  {
  }

  lemma DefaultsAreTrimmed()
    ensures Trimmed("1h") && Trimmed("public") && Trimmed("")
  {
  }

  lemma DefaultIdIsTrimmed(idx: nat)
    ensures DefaultId(idx) != "" && Trimmed(DefaultId(idx))
  {
    NumeralChars(idx + 1);
    var t := Itoa(idx + 1);
    assert t[|t| - 1] in t;
    assert DefaultId(idx)[0] == 's';
  }

  lemma ModesAreNormal()
    ensures ToLower(TrimSpace("proxy")) == "proxy" && ToLower(TrimSpace("static")) == "static"
  {
    TrimSpaceTrimmed("proxy");
    TrimSpaceTrimmed("static");
  }

  lemma SocketsAreTrimmed()
    ensures Trimmed(PHP_SOCKET) && Trimmed(PHPMYADMIN_SOCKET)
  {
  }

  lemma ReimportedHead(s: Site, idx: nat)
    requires Printable(s)
    ensures NormalHead(Reimported(s, idx))
  {
    DefaultIdIsTrimmed(idx);
    NamesTrimmed(s.serverName);
    ModesAreNormal();
  }

  lemma ReimportedValues(s: Site, idx: nat)
    requires Printable(s)
    ensures NormalValues(Reimported(s, idx))
  {
    TlsValuesAreTrimmed(s, idx);
    RequotedTrimmed(s.staticCacheControl);
    DefaultsAreTrimmed();
    SocketsAreTrimmed();
  }

  lemma ReimportedIsNormal(s: Site, idx: nat)
    requires Printable(s)
    ensures Normal(Reimported(s, idx))
  {
    ReimportedHead(s, idx);
    ReimportedValues(s, idx);
  }

  lemma ReimportedIsValid(s: Site, idx: nat)
    requires Printable(s)
    ensures ValidSite(Reimported(s, idx))
  {
    NamesAgain(s.serverName);
  }

  // ---------- All sites

  lemma OrElseTrimmed(t: string, fallback: string)
    requires Trimmed(fallback) && fallback != ""
    ensures Trimmed(OrElse(TrimSpace(t), fallback)) && OrElse(TrimSpace(t), fallback) != ""
  {
    TrimSpaceTrimmed(t);
  }

  lemma NormalSiteHead(s: Site, idx: nat)
    requires NormalSite(s, idx).serverName != ""
    ensures NormalHead(NormalSite(s, idx))
  {
    DefaultIdIsTrimmed(idx);
    OrElseTrimmed(s.id, DefaultId(idx));
    TrimSpaceTrimmed(s.serverName);
    LowerSettles(s.mode);
    ModesAreNormal();
  }

  lemma IndexTrimmed(s: Site)
    ensures var i := OrElse(TrimSpace(s.indexFiles), "index.php index.html"); Trimmed(i) && i != ""
    ensures var e := OrElse(TrimSpace(s.staticExpires), "1h"); Trimmed(e) && e != ""
    ensures var c := OrElse(TrimSpace(s.staticCacheControl), "public"); Trimmed(c) && c != ""
  {
    OrElseTrimmed(s.indexFiles, "index.php index.html");
    OrElseTrimmed(s.staticExpires, "1h");
    OrElseTrimmed(s.staticCacheControl, "public");
  }

  lemma NormalSiteValues(s: Site, idx: nat)
    ensures NormalValues(NormalSite(s, idx))
  {
    IndexTrimmed(s);
    TrimSpaceTrimmed(s.certPath);
    TrimSpaceTrimmed(s.keyPath);
    TrimSpaceTrimmed(s.sslConfigPath);
    TrimSpaceTrimmed(s.sslDhParamPath);
    TrimSpaceTrimmed(s.rootPath);
    TrimSpaceTrimmed(s.proxyPassUrl);
    TrimSpaceTrimmed(s.staticAliasPath);
    TrimSpaceTrimmed(s.phpSocket);
    TrimSpaceTrimmed(s.phpMyAdminSocket);
  }

  lemma {:induction false} KeptAreNormal(sites: seq<Site>, idx: nat, seen: set<string>)
    requires idx <= |sites|
    ensures forall s :: s in KeptFrom(sites, NormalSite, idx, seen) ==> Normal(s)
    decreases |sites| - idx
  {
    if idx < |sites| {
      var s := NormalSite(sites[idx], idx);
      KeptAreNormal(sites, idx + 1, seen);
      KeptAreNormal(sites, idx + 1, seen + {s.id});
      if s.serverName != "" {
        NormalSiteHead(sites[idx], idx);
        NormalSiteValues(sites[idx], idx);
      }
    }
  }

  /** A normal site is normalised to itself. */
  lemma NormalHeadStays(s: Site, idx: nat)
    requires Normal(s)
    ensures NormalSite(s, idx) == s
  {
    TrimSpaceTrimmed(s.id);
    TrimSpaceTrimmed(s.serverName);
    TrimSpaceTrimmed(s.certPath);
    TrimSpaceTrimmed(s.keyPath);
    TrimSpaceTrimmed(s.sslConfigPath);
    TrimSpaceTrimmed(s.sslDhParamPath);
    TrimSpaceTrimmed(s.rootPath);
    TrimSpaceTrimmed(s.indexFiles);
    TrimSpaceTrimmed(s.proxyPassUrl);
    TrimSpaceTrimmed(s.staticAliasPath);
    TrimSpaceTrimmed(s.staticExpires);
    TrimSpaceTrimmed(s.staticCacheControl);
    TrimSpaceTrimmed(s.phpSocket);
    TrimSpaceTrimmed(s.phpMyAdminSocket);
  }

  /** Sites that the normaliser leaves alone, with distinct identifiers, are all kept. */
  lemma {:induction false} AllAreKept(sites: seq<Site>, normal: Normalizer, idx: nat, seen: set<string>)
    requires idx <= |sites|
            && forall i :: idx <= i < |sites| ==> normal(sites[i], i) == sites[i] && sites[i].serverName != ""
    requires forall i :: idx <= i < |sites| ==> sites[i].id !in seen
    requires forall i, j :: idx <= i < j < |sites| ==> sites[i].id != sites[j].id
    ensures KeptFrom(sites, normal, idx, seen) == sites[idx..]
    decreases |sites| - idx
  {
    if idx < |sites| {
      AllAreKept(sites, normal, idx + 1, seen + {sites[idx].id});
      assert sites[idx..] == [sites[idx]] + sites[idx + 1..];
    }
  }

  lemma DefaultIdsDiffer(i: nat, j: nat)
    requires DefaultId(i) == DefaultId(j)
    ensures i == j
  {
    var p := "system-site-";
    assert DefaultId(i)[|p|..] == Itoa(i + 1) && DefaultId(j)[|p|..] == Itoa(j + 1);
    ItoaInjective(i + 1, j + 1);
  }

  function Reimports(sites: seq<Site>): (r: seq<Site>)
    ensures |r| == |sites| && forall i :: 0 <= i < |sites| ==> r[i] == Reimported(sites[i], i)
  {
    seq(|sites|, i requires 0 <= i < |sites| => Reimported(sites[i], i))
  }

  ghost predicate AllPrintable(sites: seq<Site>) {
    forall i :: 0 <= i < |sites| ==> Printable(sites[i])
  }

  lemma ReimportsAreKept(sites: seq<Site>)
    requires AllPrintable(sites)
    ensures NormalSites(Reimports(sites)) == Reimports(sites) && AllValid(Reimports(sites))
  {
    var r := Reimports(sites);
    forall i | 0 <= i < |r| ensures NormalSite(r[i], i) == r[i] && r[i].serverName != "" && ValidSite(r[i]) {
      ReimportedIsNormal(sites[i], i);
      ReimportedIsValid(sites[i], i);
      NormalHeadStays(r[i], i);
    }
    forall i, j | 0 <= i < j < |r| ensures r[i].id != r[j].id {
      if DefaultId(i) == DefaultId(j) {
        DefaultIdsDiffer(i, j);
      }
    }
    AllAreKept(r, NormalSite, 0, {});
  }

  // ---------- The whole text

  predicate Framed(t: string) {
    |t| > 1 && t[0] == 's' && t[|t| - 1] == '}'
  }

  lemma BlockTextFramed(s: Site)
    requires s.listenPort >= 0
    ensures Framed(BlockText(s))
  {
    BlockIsFramed(Flat(Parts(s)));
    assert "server {"[0] == 's' && "}"[0] == '}';
  }

  lemma WrittenOnce(u: string)
    requires u != "" && Trimmed(u)
    ensures NormalConfig(u + "\n") == u + "\n"
  {
    TrimTail(u, '\n');
    assert u + ['\n'] == u + "\n";
  }

  /** The text of some blocks: it ends in one line break. */
  lemma ListingShape(blocks: seq<string>)
    requires blocks != [] && forall i :: 0 <= i < |blocks| ==> Framed(blocks[i])
    ensures NormalConfig(Listing(blocks)) == Listing(blocks) != ""
  {
    ListingEnds(blocks);
    WrittenBack(Listing(blocks));
  }

  lemma WrittenBack(t: string)
    requires |t| > 2 && t[0] == 's' && t[|t| - 2] == '}' && t[|t| - 1] == '\n'
    ensures NormalConfig(t) == t
  {
    var u := t[..|t| - 1];
    assert t == u + "\n" && u[0] == 's' && u[|u| - 1] == '}';
    WrittenOnce(u);
  }

  lemma {:induction false} ListingEnds(blocks: seq<string>)
    requires blocks != [] && forall i :: 0 <= i < |blocks| ==> Framed(blocks[i])
    ensures var t := Listing(blocks); |t| > 2 && t[0] == 's' && t[|t| - 2] == '}' && t[|t| - 1] == '\n'
  {
    assert Framed(blocks[0]);
    if |blocks| > 1 {
      ListingEnds(blocks[1..]);
    }
  }

  /** Two listings of equally many blocks agree exactly when the blocks do, none being shorter. */
  lemma {:induction false} ListingsAgree(a: seq<string>, b: seq<string>)
    requires |a| == |b| && forall i :: 0 <= i < |a| ==> |a[i]| >= |b[i]|
    ensures |Listing(a)| >= |Listing(b)|
    ensures Listing(a) == Listing(b) <==> a == b
  {
    if |a| == 1 {
      Cancels(a[0], "\n", b[0], "\n");
      assert a == [a[0]] && b == [b[0]];
    } else if a != [] {
      ListingsAgree(a[1..], b[1..]);
      ListingStarts(a[0], Listing(a[1..]));
      ListingStarts(b[0], Listing(b[1..]));
      Cancels("\n\n", Listing(a[1..]), "\n\n", Listing(b[1..]));
      Cancels(a[0], "\n\n" + Listing(a[1..]), b[0], "\n\n" + Listing(b[1..]));
      assert a == [a[0]] + a[1..] && b == [b[0]] + b[1..];
    }
  }

  lemma ListingStarts(b: string, rest: string)
    ensures b + "\n\n" + rest == b + ("\n\n" + rest)
  {
  }

  lemma {:induction false} BlocksAreParsed(blocks: seq<string>, parse: (string, nat) -> Result<Site>, idx: nat,
                                           sites: seq<Site>)
    requires |blocks| == |sites| && forall i :: 0 <= i < |sites| ==> parse(blocks[i], idx + i) == Ok(sites[i])
    ensures ParsedSites(blocks, parse, idx) == Ok(sites)
    decreases |sites|
  {
    if sites != [] {
      forall i | 0 <= i < |sites[1..]| ensures parse(blocks[1..][i], idx + 1 + i) == Ok(sites[1..][i]) {
        assert parse(blocks[i + 1], idx + (i + 1)) == Ok(sites[i + 1]);
      }
      assert parse(blocks[0], idx + 0) == Ok(sites[0]);
      BlocksAreParsed(blocks[1..], parse, idx + 1, sites[1..]);
      assert sites == [sites[0]] + sites[1..];
    }
  }

  lemma PrintableAreValid(sites: seq<Site>)
    requires AllPrintable(sites)
    ensures AllValid(sites)
    ensures forall i :: 0 <= i < |sites| ==> IsBlock(BlockTexts(sites)[i])
  {
    forall i | 0 <= i < |sites| ensures ValidSite(sites[i]) && IsBlock(BlockText(sites[i])) {
      SiteLinesAreTidy(sites[i]);
    }
  }

  lemma BlockIsParsed(sites: seq<Site>, parse: (string, nat) -> Result<Site>, i: nat)
    requires parse == ParsedSite && AllPrintable(sites) && AllValid(sites) && i < |sites|
    ensures parse(BlockTexts(sites)[i], i) == Ok(Reimports(sites)[i])
  {
    SiteIsReimported(sites[i], i);
  }

  ghost predicate ParsesTo(parse: (string, nat) -> Result<Site>, blocks: seq<string>, sites: seq<Site>) {
    |blocks| == |sites| && forall i :: 0 <= i < |sites| ==> parse(blocks[i], i) == Ok(sites[i])
  }

  lemma EachIsParsed(sites: seq<Site>, parse: (string, nat) -> Result<Site>)
    requires parse == ParsedSite && AllPrintable(sites) && AllValid(sites)
    ensures ParsesTo(parse, BlockTexts(sites), Reimports(sites))
  {
    forall i | 0 <= i < |sites| ensures parse(BlockTexts(sites)[i], i) == Ok(Reimports(sites)[i]) {
      BlockIsParsed(sites, parse, i);
    }
  }

  lemma AllAreParsed(blocks: seq<string>, parse: (string, nat) -> Result<Site>, sites: seq<Site>)
    requires ParsesTo(parse, blocks, sites)
    ensures ParsedSites(blocks, parse, 0) == Ok(sites)
  {
    BlocksAreParsed(blocks, parse, 0, sites);
  }

  lemma PrintedIsParsed(sites: seq<Site>)
    requires AllPrintable(sites) && AllValid(sites)
    ensures ParsedSites(BlockTexts(sites), ParsedSite, 0) == Ok(Reimports(sites))
  {
    EachIsParsed(sites, ParsedSite);
    AllAreParsed(BlockTexts(sites), ParsedSite, Reimports(sites));
  }

  lemma ImportedFrom(raw: string, blocks: seq<string>, sites: seq<Site>)
    requires blocks != [] && Blocks(raw, "", 0) == blocks && ParsedSites(blocks, ParsedSite, 0) == Ok(sites)
    requires NormalSites(sites) == sites
    ensures Imported(raw) == Ok(sites)
  {
  }

  /** Importing a printed text gives the sites, up to what was not printed. */
  lemma PrintedIsImported(sites: seq<Site>)
    requires sites != [] && AllPrintable(sites)
    ensures AllValid(sites) && Imported(Listing(BlockTexts(sites))) == Ok(Reimports(sites))
  {
    PrintableAreValid(sites);
    ListingIsSplit(BlockTexts(sites));
    PrintedIsParsed(sites);
    ReimportsAreKept(sites);
    ImportedFrom(Listing(BlockTexts(sites)), BlockTexts(sites), Reimports(sites));
  }

  lemma PrintsAsListing(sites: seq<Site>, normal: seq<Site>)
    requires normal == NormalSites(sites) && normal != [] && AllValid(normal)
    ensures Rendered(sites, "") == Ok(Listing(BlockTexts(normal)))
  {
    forall i | 0 <= i < |normal| ensures Framed(BlockTexts(normal)[i]) {
      BlockTextFramed(normal[i]);
    }
    ListingShape(BlockTexts(normal));
  }

  /** Every site with TLS has both include paths, and no cache control holds what is escaped. */
  predicate AllComeBack(sites: seq<Site>) {
    forall i :: 0 <= i < |sites| ==> TlsPathsSet(sites[i]) && CacheIsUnescaped(sites[i])
  }

  lemma EachFixedPoint(normal: seq<Site>)
    requires AllPrintable(normal) && AllValid(normal) && AllValid(Reimports(normal))
    ensures var a, b := BlockTexts(Reimports(normal)), BlockTexts(normal);
            (forall i :: 0 <= i < |a| ==> |a[i]| >= |b[i]|) && (a == b <==> AllComeBack(normal))
  {
    var a, b := BlockTexts(Reimports(normal)), BlockTexts(normal);
    forall i | 0 <= i < |normal|
      ensures |a[i]| >= |b[i]| && (a[i] == b[i] <==> TlsPathsSet(normal[i]) && CacheIsUnescaped(normal[i]))
    {
      SiteFixedPoint(normal[i], i);
    }
  }

  lemma ListingComesBack(normal: seq<Site>, again: seq<Site>)
    requires AllPrintable(normal) && AllValid(normal) && again == Reimports(normal) && AllValid(again)
    ensures Listing(BlockTexts(again)) == Listing(BlockTexts(normal)) <==> AllComeBack(normal)
  {
    EachFixedPoint(normal);
    ListingsAgree(BlockTexts(again), BlockTexts(normal));
  }

  lemma AgainRendered(again: seq<Site>)
    requires again != [] && NormalSites(again) == again && AllValid(again)
    ensures Rendered(again, "") == Ok(Listing(BlockTexts(again)))
  {
    PrintsAsListing(again, again);
  }

  /** The same for sites as they are kept. */
  lemma KeptFixedPoint(normal: seq<Site>)
    requires normal != [] && AllPrintable(normal)
    ensures AllValid(normal) && Imported(Listing(BlockTexts(normal))) == Ok(Reimports(normal))
    ensures Rendered(Reimports(normal), "") == Ok(Listing(BlockTexts(normal))) <==> AllComeBack(normal)
  {
    PrintedIsImported(normal);
    ReimportsAreKept(normal);
    ListingComesBack(normal, Reimports(normal));
    AgainRendered(Reimports(normal));
  }

  lemma KeptArePrintable(sites: seq<Site>)
    requires var normal := NormalSites(sites);
             forall i :: 0 <= i < |normal| ==> ValidSite(normal[i]) && Plain(normal[i])
    ensures AllPrintable(NormalSites(sites))
  {
    var normal := NormalSites(sites);
    KeptAreNormal(sites, 0, {});
    forall i | 0 <= i < |normal| ensures Printable(normal[i]) {
      assert normal[i] in normal;
    }
  }

  /** For sites that are kept, valid and plain: printing, importing and printing again gives the
      same text exactly when every site with TLS has both TLS include paths and no printed cache
      control holds a character that is escaped. */
  lemma RenderImportRender(sites: seq<Site>)
    requires var normal := NormalSites(sites);
             normal != [] && forall i :: 0 <= i < |normal| ==> ValidSite(normal[i]) && Plain(normal[i])
    ensures var text := Rendered(sites, "");
            && text.Ok? && Imported(text.value) == Ok(Reimports(NormalSites(sites)))
            && (Rendered(Imported(text.value).value, "") == text <==> AllComeBack(NormalSites(sites)))
  {
    KeptArePrintable(sites);
    PrintableAreValid(NormalSites(sites));
    PrintsAsListing(sites, NormalSites(sites));
    KeptFixedPoint(NormalSites(sites));
  }

  /** A cache control with a no-break space inside, which nothing of the above shuts out, comes
      back with its escape and is not printed the same. */
  lemma NoBreakSpaceIsNotPrintedAgain(s: Site, a: string, b: string, idx: nat)
    requires Printable(s) && s.staticAliasPath != "" && Unescaped(a) && Unescaped(b) && b != ""
    requires s.staticCacheControl == a + ['\U{A0}'] + b
    ensures ParsedSite(BlockText(s), idx).Ok?
    ensures var r := ParsedSite(BlockText(s), idx).value;
            && r.staticCacheControl == a + "\\u00a0" + b
            && r.listenPort >= 0 && BlockText(r) != BlockText(s)
  {
    SiteIsReimported(s, idx);
    NoBreakSpaceIsRead(a, b);
    SiteFixedPoint(s, idx);
  }

  // ---------- The raw tail

  predicate AllSpaces(s: string) {
    forall i :: 0 <= i < |s| ==> IsSpace(s[i])
  }

  lemma {:induction false} BlankIsSpaces(s: string)
    ensures TrimRight(s) == "" <==> AllSpaces(s)
  {
    if s != [] && IsSpace(s[|s| - 1]) {
      BlankIsSpaces(s[..|s| - 1]);
      assert forall i :: 0 <= i < |s| - 1 ==> s[i] == s[..|s| - 1][i];
    }
  }

  lemma {:induction false} LeftOfSpaces(s: string)
    ensures AllSpaces(s) <==> TrimLeft(s) == ""
  {
    if s != [] && IsSpace(s[0]) {
      LeftOfSpaces(s[1..]);
      assert forall i :: 0 < i < |s| ==> s[i] == s[1..][i - 1];
    }
  }

  lemma TrimmedToNothing(s: string)
    ensures TrimSpace(s) == "" <==> AllSpaces(s)
  {
    LeftOfSpaces(s);
    TrimLeftStart(s);
    BlankIsSpaces(TrimLeft(s));
  }

  lemma {:induction false} TrimRightBehind(a: string, b: string)
    ensures !AllSpaces(b) ==> TrimRight(a + b) == a + TrimRight(b)
    ensures AllSpaces(b) ==> TrimRight(a + b) == TrimRight(a)
  {
    if b == [] {
      assert a + b == a;
    } else {
      var n := |b| - 1;
      var c := b[..n];
      assert b == c + [b[n]];
      assert (a + b)[|a + b| - 1] == b[n] && (a + b)[..|a + b| - 1] == a + c;
      if IsSpace(b[n]) {
        TrimRightBehind(a, c);
        assert AllSpaces(b) <==> AllSpaces(c);
      }
    }
  }

  /** A text as it is written out, followed by more. */
  lemma WrittenWithTail(text: string, raw: string)
    requires text != "" && text[|text| - 1] == '\n' && NormalConfig(text) == text
    ensures NormalConfig(text + "\n" + raw)
            == if AllSpaces(raw) then text else text + "\n" + TrimRight(raw) + "\n"
  {
    TrimSpaceTrimmed(text);
    var t := TrimSpace(text);
    assert text == t + "\n" && t != "" && text[0] == t[0];
    var all := text + "\n" + raw;
    assert all[0] == t[0] && TrimLeft(all) == all && TrimLeft(text) == text;
    TrimRightBehind(text + "\n", raw);
    TrimRightBehind(text, "\n");
  }

  /** What is rendered: nothing for an invalid site; without sites the raw text alone; otherwise the
      blocks, and the raw text behind an empty line unless it is blank. */
  lemma RawTextIsKept(sites: seq<Site>, raw: string)
    ensures Rendered(sites, raw).Err? <==> exists s :: s in NormalSites(sites) && !ValidSite(s)
    ensures NormalSites(sites) == [] ==>
              Rendered(sites, raw) == Ok(if AllSpaces(raw) then "" else TrimSpace(raw) + "\n")
    ensures NormalSites(sites) != [] && Rendered(sites, raw).Ok? ==>
              && Rendered(sites, "").Ok?
              && Rendered(sites, raw).value
                 == Rendered(sites, "").value + if AllSpaces(raw) then "" else "\n" + TrimRight(raw) + "\n"
  {
    var normal := NormalSites(sites);
    InvalidIsFound(normal);
    TrimmedToNothing(raw);
    if normal != [] && AllValid(normal) {
      PrintsAsListing(sites, normal);
      TailIsKept(sites, normal, raw);
    }
  }

  lemma InvalidIsFound(normal: seq<Site>)
    ensures !AllValid(normal) <==> exists s :: s in normal && !ValidSite(s)
  {
    if !AllValid(normal) {
      var i :| 0 <= i < |normal| && !ValidSite(normal[i]);
      assert normal[i] in normal;
    }
  }

  lemma RenderedIs(sites: seq<Site>, normal: seq<Site>, text: string, raw: string)
    requires normal == NormalSites(sites) && AllValid(normal) && text == Listing(BlockTexts(normal))
    ensures Rendered(sites, raw) == Ok(NormalConfig(WithTail(text, raw)))
  {
  }

  lemma TailWritten(text: string, raw: string)
    requires text != "" && text[|text| - 1] == '\n' && NormalConfig(text) == text
    ensures NormalConfig(WithTail(text, raw)) == text + if AllSpaces(raw) then "" else "\n" + TrimRight(raw) + "\n"
  {
    WrittenWithTail(text, raw);
    assert text + "\n" + TrimRight(raw) + "\n" == text + ("\n" + TrimRight(raw) + "\n") && text + "" == text;
  }

  lemma TailIsKept(sites: seq<Site>, normal: seq<Site>, raw: string)
    requires normal == NormalSites(sites) && AllValid(normal) && normal != []
    ensures Rendered(sites, raw)
            == Ok(Listing(BlockTexts(normal)) + if AllSpaces(raw) then "" else "\n" + TrimRight(raw) + "\n")
  {
    ListingIsWritten(normal);
    RenderedIs(sites, normal, Listing(BlockTexts(normal)), raw);
    TailWritten(Listing(BlockTexts(normal)), raw);
  }

  lemma ListingIsWritten(normal: seq<Site>)
    requires normal != [] && AllValid(normal)
    ensures var t := Listing(BlockTexts(normal)); t != "" && t[|t| - 1] == '\n' && NormalConfig(t) == t
  {
    forall i | 0 <= i < |normal| ensures Framed(BlockTexts(normal)[i]) {
      BlockTextFramed(normal[i]);
    }
    ListingShape(BlockTexts(normal));
    ListingEnds(BlockTexts(normal));
  }
}
