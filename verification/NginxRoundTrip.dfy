/** Printing sites, importing the text and printing again. */
module NginxRoundTrip {
  import opened Text
  import opened NginxScanner
  import opened NginxLines
  import opened NginxLayout
  import opened NginxQuoting
  import opened NginxSites
  import opened NginxParts
  import opened NginxReading
  import opened NginxSearching
  import opened NginxSockets

  /** The include the importer takes for the site's TLS options. */
  function FirstInclude(s: Site): string {
    if SslValue(s, Include) != "" then SslValue(s, Include)
    else if s.phpMyAdminEnabled || s.phpEnabled then "fastcgi_params" else ""
  }

  /** A printed site as it is imported: what was not printed takes the importer's defaults. */
  function Reimported(s: Site, idx: nat): Site {
    var proxy := s.mode == "proxy";
    var static_ := s.staticAliasPath != "";
    Site(DefaultId(idx), Join(Names(s.serverName), " "), if proxy then "proxy" else "static",
         s.listenPort, s.ssl, s.ssl && s.http2, SslValue(s, SslCertificate), SslValue(s, SslCertificateKey),
         OrElse(FirstInclude(s), SSL_CONFIG), OrElse(SslValue(s, SslDhParam), SSL_DHPARAM),
         s.rootPath, s.indexFiles, if proxy then s.proxyPassUrl else "", proxy && s.proxyBufferingOff,
         s.staticAliasPath, static_ && s.accessLogOffStatic,
         if static_ then s.staticExpires else "1h", if static_ then Requoted(s.staticCacheControl) else "public",
         s.phpEnabled, if s.phpEnabled then s.phpSocket else PHP_SOCKET,
         s.phpMyAdminEnabled, if s.phpMyAdminEnabled then s.phpMyAdminSocket else PHPMYADMIN_SOCKET)
  }

  // ---------- What the locations set

  function WithProxy(start: Site, s: Site): Site {
    if s.mode == "proxy"
    then start.(mode := "proxy", proxyPassUrl := s.proxyPassUrl, proxyBufferingOff := s.proxyBufferingOff)
    else start
  }

  function WithStatic(start: Site, s: Site, cache: string): Site {
    if s.staticAliasPath == "" then start
    else start.(staticAliasPath := s.staticAliasPath, accessLogOffStatic := s.accessLogOffStatic,
                staticExpires := s.staticExpires, staticCacheControl := cache)
  }

  function WithPhp(start: Site, s: Site): Site {
    start.(phpEnabled := s.phpEnabled, phpSocket := if s.phpEnabled then s.phpSocket else start.phpSocket,
           phpMyAdminEnabled := s.phpMyAdminEnabled,
           phpMyAdminSocket := if s.phpMyAdminEnabled then s.phpMyAdminSocket else start.phpMyAdminSocket)
  }

  // ---------- The listen line

  lemma {:induction false} DigitsRead(n: nat)
    ensures DigitsValue(Itoa(n)) == Some(n)
  {
    if n >= 10 {
      DigitsRead(n / 10);
      var t := Itoa(n / 10);
      ItoaLast(n / 10);
      assert Itoa(n)[..|t|] == t && Itoa(n)[|t|] == Digit(n % 10);
    }
  }

  lemma AtoiReadsItoa(n: nat)
    requires n <= 65535
    ensures Atoi(Itoa(n)) == Some(n)
  {
    NumeralChars(n);
    DigitsRead(n);
  }

  lemma DigitsAreAWord(digits: string)
    requires forall c :: c in digits ==> '0' <= c <= '9'
    ensures forall c :: c in digits ==> !IsSpace(c)
  {
  }

  lemma FirstField(digits: string, tail: string)
    requires digits != "" && (forall c :: c in digits ==> '0' <= c <= '9') && (tail == "" || tail[0] == ' ')
    ensures var f := Fields(digits + tail, IsSpace, []); f != [] && f[0] == digits
  {
    DigitsAreAWord(digits);
    FieldsReadsWord(digits, tail, IsSpace, []);
    assert [] + digits == digits;
  }

  function ListenTailOf(s: Site): string {
    if s.ssl then " ssl" + (if s.http2 then " http2" else "") else ""
  }

  lemma ListenPort(s: Site)
    requires 1 <= s.listenPort <= 65535
    ensures FirstNumber(Fields(ListenValue(s), IsSpace, [])) == s.listenPort && ListenValue(s) != ""
  {
    NumeralChars(s.listenPort);
    AtoiReadsItoa(s.listenPort);
    FirstField(Itoa(s.listenPort), ListenTailOf(s));
  }

  lemma ListenFlags(digits: string, tail: string)
    requires (forall c :: c in digits ==> '0' <= c <= '9') && tail in {"", " ssl", " ssl http2"}
    ensures Contains(digits + tail, "ssl") <==> tail != ""
    ensures Contains(digits + tail, "http2") <==> tail == " ssl http2"
  {
    assert "ssl"[0] == 's' && "http2"[0] == 'h';
    if tail == "" {
      LacksChar(digits + tail, "ssl", 's');
      LacksChar(digits + tail, "http2", 'h');
    } else if tail == " ssl" {
      assert digits + tail == (digits + " ") + "ssl" + "";
      ContainsMiddle(digits + " ", "ssl", "");
      LacksChar(digits + tail, "http2", 'h');
    } else {
      assert digits + tail == (digits + " ") + "ssl" + " http2";
      assert digits + tail == (digits + " ssl ") + "http2" + "";
      ContainsMiddle(digits + " ", "ssl", " http2");
      ContainsMiddle(digits + " ssl ", "http2", "");
    }
  }

  lemma ListenContains(s: Site)
    requires s.listenPort >= 0
    ensures Contains(ListenValue(s), "ssl") == s.ssl && Contains(ListenValue(s), "http2") == (s.ssl && s.http2)
  {
    NumeralChars(s.listenPort);
    assert " ssl" + " http2" == " ssl http2" && " ssl" + "" == " ssl";
    ListenFlags(Itoa(s.listenPort), ListenTailOf(s));
  }

  // ---------- Reading a printed site

  /** The facts about a printed site from which it is read. */
  ghost predicate Laid(s: Site, parts: seq<seq<Line>>, words: seq<set<Word>>, lines: seq<string>, block: string) {
    && Shown(parts, words, lines) && PartsOf(s, parts, words)
    && block == Join(Texts(Block(Flat(parts))), "\n")
    && s.listenPort >= 0 && parts[0] == Head(s) && parts[1] == SslPart(s) && parts[2] == Headers()
       && parts[3] == Roots(s)
  }

  ghost predicate Placed(words: seq<set<Word>>) {
    && |words| == 8 && OnlyIn(words, Listen, 0) && OnlyIn(words, ServerName, 0)
    && OnlyIn(words, SslCertificate, 1) && OnlyIn(words, SslCertificateKey, 1) && OnlyIn(words, SslDhParam, 1)
    && OnlyIn(words, Root, 3) && OnlyIn(words, Alias, 4) && OnlyIn(words, Expires, 4) && OnlyIn(words, AccessLog, 4)
    && OnlyIn(words, ProxyPass, 7) && OnlyIn(words, ProxyBuffering, 7)
    && (forall j :: 0 <= j < 3 ==> IndexWord !in words[j])
    && AddHeader !in words[0] && AddHeader !in words[1] && AddHeader !in words[3]
    && (forall j :: 0 <= j < 8 && j != 1 && j != 5 && j != 6 ==> Include !in words[j])
  }

  lemma ReadListenIs(s: Site, parts: seq<seq<Line>>, words: seq<set<Word>>, lines: seq<string>, block: string,
                     start: Site)
    requires Printable(s) && Laid(s, parts, words, lines, block) && Placed(words)
    ensures ReadListen(start, lines) == start.(listenPort := s.listenPort, ssl := s.ssl, http2 := s.ssl && s.http2)
  {
    HeadDirectives(s, parts, words, lines);
    ListenPort(s);
    ListenContains(s);
  }

  lemma HashFree(value: string)
    requires PlainText(value + ";")
    ensures '#' !in value + ";"
  {
  }

  lemma EmptyIsHashFree()
    ensures Trimmed("") && '#' !in "" + ";"
  {
  }

  lemma SslValueHashFree(s: Site, w: Word)
    requires Plain(s) && w in SSL_WORDS
    ensures '#' !in SslValue(s, w) + ";"
  {
    EmptyIsHashFree();
    if s.ssl {
      HashFree(SslValue(s, w));
    }
  }

  ghost predicate CleanValue(value: string) {
    Trimmed(value) && '#' !in value + ";"
  }

  lemma TlsRead(s: Site, parts: seq<seq<Line>>, words: seq<set<Word>>, lines: seq<string>, w: Word)
    requires Shown(parts, words, lines) && OnlyIn(words, w, 1) && parts[1] == SslPart(s) && w in SSL_WORDS
    requires CleanValue(SslValue(s, w))
    ensures Read(lines, Spell(w)) == SslValue(s, w)
  {
    SslDirective(s, parts, words, lines, w);
    ReadIs(lines, Spell(w), SslValue(s, w));
  }

  lemma IncludeRead(s: Site, parts: seq<seq<Line>>, words: seq<set<Word>>, lines: seq<string>)
    requires Shown(parts, words, lines) && |parts| == 8
    requires parts[1] == SslPart(s) && parts[5] == PhpMyAdminPart(s) && parts[6] == PhpPart(s)
    requires forall j :: 0 <= j < 8 && j != 1 && j != 5 && j != 6 ==> Include !in words[j]
    requires CleanValue(SslValue(s, Include)) && Trimmed(FirstInclude(s))
    ensures Read(lines, Spell(Include)) == FirstInclude(s)
  {
    IncludeDirective(s, parts, words, lines);
    ReadIs(lines, Spell(Include), FirstInclude(s));
  }

  lemma TlsValueIsClean(s: Site, w: Word)
    requires Normal(s) && Plain(s) && w in SSL_WORDS
    ensures CleanValue(SslValue(s, w)) && Trimmed(FirstInclude(s))
  {
    SslValueHashFree(s, w);
    SslValueTrimmed(s, w);
  }

  lemma TlsIsClean(s: Site)
    requires Normal(s) && Plain(s)
    ensures CleanValue(SslValue(s, SslCertificate)) && CleanValue(SslValue(s, SslCertificateKey))
    ensures CleanValue(SslValue(s, Include)) && CleanValue(SslValue(s, SslDhParam)) && Trimmed(FirstInclude(s))
  {
    TlsValueIsClean(s, SslCertificate);
    TlsValueIsClean(s, SslCertificateKey);
    TlsValueIsClean(s, Include);
    TlsValueIsClean(s, SslDhParam);
  }

  lemma SslValueTrimmed(s: Site, w: Word)
    requires Normal(s)
    ensures Trimmed(SslValue(s, w)) && Trimmed(FirstInclude(s))
  {
  }

  lemma ReadIs(lines: seq<string>, name: string, value: string)
    requires Directive(lines, name) == value && Trimmed(value)
    ensures Read(lines, name) == value
  {
    TrimSpaceTrimmed(value);
  }

  lemma ReadNamesIs(s: Site, parts: seq<seq<Line>>, words: seq<set<Word>>, lines: seq<string>, block: string,
                    start: Site)
    requires Printable(s) && Laid(s, parts, words, lines, block) && Placed(words)
    requires CleanValue(SslValue(s, SslCertificate)) && CleanValue(SslValue(s, SslCertificateKey))
    ensures ReadNames(start, lines)
            == start.(serverName := Join(Names(s.serverName), " "), certPath := SslValue(s, SslCertificate),
                      keyPath := SslValue(s, SslCertificateKey))
  {
    NameRead(s, parts, words, lines);
    TlsRead(s, parts, words, lines, SslCertificate);
    TlsRead(s, parts, words, lines, SslCertificateKey);
  }

  lemma ReadIncludesIs(s: Site, parts: seq<seq<Line>>, words: seq<set<Word>>, lines: seq<string>, block: string,
                       start: Site)
    requires Laid(s, parts, words, lines, block) && Placed(words)
    requires CleanValue(SslValue(s, Include)) && CleanValue(SslValue(s, SslDhParam)) && Trimmed(FirstInclude(s))
    ensures ReadIncludes(start, lines)
            == start.(sslConfigPath := OrElse(FirstInclude(s), start.sslConfigPath),
                      sslDhParamPath := OrElse(SslValue(s, SslDhParam), start.sslDhParamPath))
  {
    TlsRead(s, parts, words, lines, SslDhParam);
    IncludeRead(s, parts, words, lines);
    TlsNames();
    IncludesFrom(start, lines, FirstInclude(s), SslValue(s, SslDhParam));
  }

  lemma TlsNames()
    ensures Spell(Include) == "include" && Spell(SslDhParam) == "ssl_dhparam"
  {
  }

  lemma IncludesFrom(start: Site, lines: seq<string>, inc: string, dh: string)
    requires Read(lines, "include") == inc && Read(lines, "ssl_dhparam") == dh
    ensures ReadIncludes(start, lines)
            == start.(sslConfigPath := OrElse(inc, start.sslConfigPath),
              sslDhParamPath := OrElse(dh, start.sslDhParamPath))
  {
  }

  lemma ReadRootsIs(s: Site, parts: seq<seq<Line>>, words: seq<set<Word>>, lines: seq<string>, block: string,
                    start: Site)
    requires Printable(s) && Laid(s, parts, words, lines, block) && Placed(words)
    ensures ReadRoots(start, lines)
            == start.(rootPath := OrElse(s.rootPath, start.rootPath), indexFiles := s.indexFiles)
  {
    RootsHashFree(s);
    RootRead(s, parts, words, lines);
    IndexRead(s, parts, words, lines);
  }

  lemma NameRead(s: Site, parts: seq<seq<Line>>, words: seq<set<Word>>, lines: seq<string>)
    requires Shown(parts, words, lines) && OnlyIn(words, Listen, 0) && OnlyIn(words, ServerName, 0)
    requires s.listenPort >= 0 && parts[0] == Head(s) && ValidNames(s.serverName)
            && PlainText(Join(Names(s.serverName), " ") + ";")
    ensures Read(lines, "server_name") == Join(Names(s.serverName), " ")
  {
    HeadDirectives(s, parts, words, lines);
    NamesTrimmed(s.serverName);
    ReadIs(lines, "server_name", Join(Names(s.serverName), " "));
  }

  lemma RootRead(s: Site, parts: seq<seq<Line>>, words: seq<set<Word>>, lines: seq<string>)
    requires Shown(parts, words, lines) && OnlyIn(words, Root, 3) && parts[3] == Roots(s)
    requires Trimmed(s.rootPath) && '#' !in s.rootPath + ";"
    ensures Read(lines, "root") == s.rootPath
  {
    RootDirective(s, parts, words, lines);
    ReadIs(lines, "root", s.rootPath);
  }

  lemma IndexRead(s: Site, parts: seq<seq<Line>>, words: seq<set<Word>>, lines: seq<string>)
    requires Shown(parts, words, lines) && |parts| == 8 && parts[3] == Roots(s)
    requires forall j :: 0 <= j < 3 ==> IndexWord !in words[j]
    requires s.indexFiles != "" && Trimmed(s.indexFiles) && '#' !in s.indexFiles + ";"
    ensures Read(lines, "index") == s.indexFiles
  {
    IndexDirective(s, parts, words, lines);
    ReadIs(lines, "index", s.indexFiles);
  }

  lemma RootsHashFree(s: Site)
    requires Plain(s)
    ensures '#' !in s.rootPath + ";" && '#' !in s.indexFiles + ";"
  {
  }

  // ---------- Texts that decide

  lemma NeedleTexts()
    ensures Spell(Location) + " " + "/static/" == N_STATIC && Spell(Location) + " " + "/phpmyadmin/" == N_PHPMYADMIN
    ensures Spell(Location) + " " + "~ \\.php$" == N_PHP && Spell(ProxyPass) + " " + "" == N_PROXY
    ensures Spell(ProxyBuffering) + " " + "off;" == N_BUFFERING && Spell(AccessLog) + " " + "off;" == N_LOG
  {
  }

  lemma TextsOccur(s: Site, parts: seq<seq<Line>>, words: seq<set<Word>>, lines: seq<string>, block: string)
    requires Laid(s, parts, words, lines, block) && Placed(words)
    ensures Contains(block, N_STATIC) <==> s.staticAliasPath != ""
    ensures Contains(block, N_PHPMYADMIN) <==> s.phpMyAdminEnabled
    ensures Contains(block, N_PHP) <==> s.phpEnabled
  {
    NeedleTexts();
    TextOccurs(parts, words, Location, "/static/");
    StaticFound(s, parts, words);
    TextOccurs(parts, words, Location, "/phpmyadmin/");
    PhpMyAdminFound(s, parts, words);
    TextOccurs(parts, words, Location, "~ \\.php$");
    PhpFound(s, parts, words);
  }

  lemma OffTextsOccur(s: Site, parts: seq<seq<Line>>, words: seq<set<Word>>, lines: seq<string>, block: string)
    requires Laid(s, parts, words, lines, block) && Placed(words)
    ensures Contains(block, N_PROXY) <==> s.mode == "proxy"
    ensures Contains(block, N_BUFFERING) <==> s.mode == "proxy" && s.proxyBufferingOff
    ensures Contains(block, N_LOG) <==> s.staticAliasPath != "" && s.accessLogOffStatic
  {
    NeedleTexts();
    TextOccurs(parts, words, ProxyPass, "");
    ProxyFound(s, parts, words);
    TextOccurs(parts, words, ProxyBuffering, "off;");
    BufferingFound(s, parts, words);
    TextOccurs(parts, words, AccessLog, "off;");
    LogFound(s, parts, words);
  }

  /** The main location is always there. */
  lemma MainOccurs(s: Site, parts: seq<seq<Line>>, block: string)
    requires |parts| == 8 && parts[7] == MainPart(s) && block == Join(Texts(Block(Flat(parts))), "\n")
    ensures Contains(block, "location / {")
  {
    var l := Stmt(1, Location, ROOT);
    assert l in parts[7];
    InFlat(parts, l);
    assert l in Block(Flat(parts));
    assert HasPrefix(l.rest, ROOT) && LineHas(l, Location, ROOT);
    ContainsLines(Block(Flat(parts)), Location, ROOT);
    RootText();
  }

  lemma RootText()
    ensures Spell(Location) + " " + ROOT == "location / {" && '\n' !in ROOT
  {
  }

  lemma ProxyRead(s: Site, parts: seq<seq<Line>>, words: seq<set<Word>>, lines: seq<string>)
    requires Shown(parts, words, lines) && OnlyIn(words, ProxyPass, 7) && parts[7] == MainPart(s)
    requires s.mode == "proxy" && Trimmed(s.proxyPassUrl) && PlainText(s.proxyPassUrl + ";")
    ensures Read(lines, "proxy_pass") == s.proxyPassUrl
  {
    HashFree(s.proxyPassUrl);
    ProxyPassDirective(s, parts, words, lines);
    ReadIs(lines, "proxy_pass", s.proxyPassUrl);
  }

  /** What `ReadProxy` makes of what it finds. */
  lemma ProxyFrom(start: Site, block: string, lines: seq<string>, proxy: bool, url: string, off: bool)
    requires Contains(block, "location / {") && Contains(block, "proxy_pass ") == proxy
    requires proxy ==> Read(lines, "proxy_pass") == url && Contains(block, "proxy_buffering off;") == off
    ensures ReadProxy(start, block, lines)
            == if proxy then start.(mode := "proxy", proxyPassUrl := url, proxyBufferingOff := off) else start
  {
  }

  lemma ReadProxyIs(s: Site, parts: seq<seq<Line>>, words: seq<set<Word>>, lines: seq<string>, block: string,
                    start: Site)
    requires Printable(s) && Laid(s, parts, words, lines, block) && Placed(words)
    ensures ReadProxy(start, block, lines) == WithProxy(start, s)
  {
    MainOccurs(s, parts, block);
    OffTextsOccur(s, parts, words, lines, block);
    if s.mode == "proxy" {
      ProxyRead(s, parts, words, lines);
    }
    ProxyFrom(start, block, lines, s.mode == "proxy", s.proxyPassUrl, s.proxyBufferingOff);
  }

  lemma HashFreeQuote(s: Site)
    requires Plain(s) && s.staticAliasPath != ""
    ensures '#' !in Quote(s.staticCacheControl) + ";"
  {
    var t := "Cache-Control " + Quote(s.staticCacheControl) + ";";
    var q := Quote(s.staticCacheControl) + ";";
    assert forall i :: 0 <= i < |q| ==> t[i + 14] == q[i];
  }

  lemma StaticRead(s: Site, parts: seq<seq<Line>>, words: seq<set<Word>>, lines: seq<string>)
    requires Shown(parts, words, lines) && OnlyIn(words, Alias, 4) && OnlyIn(words, Expires, 4)
            && parts[4] == StaticPart(s)
    requires s.staticAliasPath != "" && Trimmed(s.staticAliasPath) && '#' !in s.staticAliasPath + ";"
    requires s.staticExpires != "" && Trimmed(s.staticExpires) && '#' !in s.staticExpires + ";"
    ensures Read(lines, Spell(Alias)) == s.staticAliasPath && Read(lines, Spell(Expires)) == s.staticExpires
  {
    StaticDirectives(s, parts, words, lines);
    ReadIs(lines, Spell(Alias), s.staticAliasPath);
    ReadIs(lines, Spell(Expires), s.staticExpires);
  }

  lemma StaticHashFree(s: Site)
    requires Plain(s) && s.staticAliasPath != ""
    ensures '#' !in s.staticAliasPath + ";" && '#' !in s.staticExpires + ";"
  {
  }

  lemma CacheRead(s: Site, parts: seq<seq<Line>>, words: seq<set<Word>>, lines: seq<string>)
    requires Shown(parts, words, lines) && |parts| == 8 && parts[4] == StaticPart(s) && parts[2] == Headers()
    requires AddHeader !in words[0] && AddHeader !in words[1] && AddHeader !in words[3]
    requires s.staticAliasPath != "" && s.staticCacheControl != "" && Plain(s)
    ensures TrimQuotes(Directive(lines, "add_header Cache-Control")) == Requoted(s.staticCacheControl)
  {
    HashFreeQuote(s);
    CacheDirective(s, parts, words, lines);
  }

  lemma CachingFrom(start: Site, lines: seq<string>, expires: string, cache: string)
    requires Read(lines, Spell(Expires)) == expires && expires != ""
    requires TrimQuotes(Directive(lines, "add_header Cache-Control")) == cache && cache != ""
    ensures ReadCaching(start, lines) == start.(staticExpires := expires, staticCacheControl := cache)
  {
  }

  /** What `ReadStatic` makes of what it finds. */
  lemma StaticFrom(start: Site, block: string, lines: seq<string>, path: string, log: bool, after: Site)
    requires Contains(block, "location /static/")
    requires Read(lines, Spell(Alias)) == path && Contains(block, "access_log off;") == log
    requires ReadCaching(start.(staticAliasPath := path, accessLogOffStatic := log), lines) == after
    ensures ReadStatic(start, block, lines) == after
  {
  }

  lemma ReadStaticIs(s: Site, parts: seq<seq<Line>>, words: seq<set<Word>>, lines: seq<string>, block: string,
                     start: Site)
    requires Printable(s) && Laid(s, parts, words, lines, block) && Placed(words)
    ensures ReadStatic(start, block, lines) == WithStatic(start, s, Requoted(s.staticCacheControl))
  {
    TextsOccur(s, parts, words, lines, block);
    OffTextsOccur(s, parts, words, lines, block);
    if s.staticAliasPath != "" {
      StaticHashFree(s);
      StaticRead(s, parts, words, lines);
      CacheRead(s, parts, words, lines);
      RequotedTrimmed(s.staticCacheControl);
      var a := start.(staticAliasPath := s.staticAliasPath, accessLogOffStatic := s.accessLogOffStatic);
      CachingFrom(a, lines, s.staticExpires, Requoted(s.staticCacheControl));
      StaticFrom(start, block, lines, s.staticAliasPath, s.accessLogOffStatic,
                 a.(staticExpires := s.staticExpires, staticCacheControl := Requoted(s.staticCacheControl)));
    }
  }

  lemma ReadPhpIs(s: Site, parts: seq<seq<Line>>, words: seq<set<Word>>, lines: seq<string>, block: string, start: Site)
    requires Printable(s) && Laid(s, parts, words, lines, block) && Placed(words)
    requires start.phpEnabled == false && start.phpMyAdminEnabled == false
    ensures ReadPhp(start, block, lines) == WithPhp(start, s)
  {
    TextsOccur(s, parts, words, lines, block);
    if s.phpEnabled {
      PhpSocket(s, parts, words);
    }
    if s.phpMyAdminEnabled {
      PhpMyAdminSocket(s, parts, words);
    }
  }

  lemma HomesOfHead()
    ensures OnlyIn(PartWords(), Listen, 0) && OnlyIn(PartWords(), ServerName, 0)
  {
  }

  lemma HomesOfTls()
    ensures OnlyIn(PartWords(), SslCertificate, 1) && OnlyIn(PartWords(), SslCertificateKey, 1)
    ensures OnlyIn(PartWords(), SslDhParam, 1)
  {
  }

  lemma HomesOfStatic()
    ensures OnlyIn(PartWords(), Root, 3) && OnlyIn(PartWords(), Alias, 4)
    ensures OnlyIn(PartWords(), Expires, 4) && OnlyIn(PartWords(), AccessLog, 4)
  {
  }

  lemma HomesOfMain()
    ensures OnlyIn(PartWords(), ProxyPass, 7) && OnlyIn(PartWords(), ProxyBuffering, 7)
  {
  }

  lemma SharedHomes()
    ensures forall j :: 0 <= j < 3 ==> IndexWord !in PartWords()[j]
    ensures AddHeader !in PartWords()[0] && AddHeader !in PartWords()[1] && AddHeader !in PartWords()[3]
    ensures forall j :: 0 <= j < 8 && j != 1 && j != 5 && j != 6 ==> Include !in PartWords()[j]
    ensures forall j :: 0 <= j < 4 ==> Location !in PartWords()[j]
  {
  }

  lemma WordsArePlaced()
    ensures Placed(PartWords()) && forall j :: 0 <= j < 4 ==> Location !in PartWords()[j]
  {
    HomesOfHead();
    HomesOfTls();
    HomesOfStatic();
    HomesOfMain();
    SharedHomes();
  }

  lemma PartsInPlace(s: Site, parts: seq<seq<Line>>, words: seq<set<Word>>)
    requires s.listenPort >= 0 && FineParts(parts, words)
    requires parts
            == [Head(s), SslPart(s), Headers(), Roots(s), StaticPart(s), PhpMyAdminPart(s), PhpPart(s), MainPart(s)]
    requires |words| == 8 && forall j :: 0 <= j < 4 ==> Location !in words[j]
    ensures PartsOf(s, parts, words)
    ensures parts[0] == Head(s) && parts[1] == SslPart(s) && parts[2] == Headers() && parts[3] == Roots(s)
  {
    Eight(Head(s), SslPart(s), Headers(), Roots(s), StaticPart(s), PhpMyAdminPart(s), PhpPart(s), MainPart(s));
  }

  lemma Eight(a: seq<Line>, b: seq<Line>, c: seq<Line>, d: seq<Line>, e: seq<Line>, f: seq<Line>, g: seq<Line>,
              h: seq<Line>)
    ensures var p := [a, b, c, d, e, f, g, h];
            && |p| == 8 && p[0] == a && p[1] == b && p[2] == c && p[3] == d && p[4] == e && p[5] == f && p[6] == g
               && p[7] == h
  {
  }

  lemma SiteIsLaid(s: Site)
    requires Printable(s)
    ensures Laid(s, Parts(s), PartWords(), Split(BlockText(s), '\n'), BlockText(s))
  {
    SiteIsShown(s);
    SharedHomes();
    PartsInPlace(s, Parts(s), PartWords());
  }

  function WithListen(start: Site, s: Site): Site {
    start.(listenPort := s.listenPort, ssl := s.ssl, http2 := s.ssl && s.http2)
  }

  function WithNames(start: Site, s: Site): Site {
    start.(serverName := Join(Names(s.serverName), " "), certPath := SslValue(s, SslCertificate),
           keyPath := SslValue(s, SslCertificateKey))
  }

  function WithIncludes(start: Site, s: Site): Site {
    start.(sslConfigPath := OrElse(FirstInclude(s), start.sslConfigPath),
           sslDhParamPath := OrElse(SslValue(s, SslDhParam), start.sslDhParamPath))
  }

  function WithRoots(start: Site, s: Site): Site {
    start.(rootPath := OrElse(s.rootPath, start.rootPath), indexFiles := s.indexFiles)
  }

  function WithHead(start: Site, s: Site): Site {
    WithRoots(WithIncludes(WithNames(WithListen(start, s), s), s), s)
  }

  /** The readings of the head ... */
  lemma HeadIsRead(s: Site, parts: seq<seq<Line>>, words: seq<set<Word>>, lines: seq<string>, block: string,
                   start: Site)
    requires Printable(s) && Laid(s, parts, words, lines, block) && Placed(words)
    ensures ReadHead(start, lines) == WithHead(start, s)
  {
    FrontIsRead(s, parts, words, lines, block, start);
    BackIsRead(s, parts, words, lines, block, WithNames(WithListen(start, s), s));
  }

  lemma FrontIsRead(s: Site, parts: seq<seq<Line>>, words: seq<set<Word>>, lines: seq<string>, block: string,
                    start: Site)
    requires Printable(s) && Laid(s, parts, words, lines, block) && Placed(words)
    ensures ReadNames(ReadListen(start, lines), lines) == WithNames(WithListen(start, s), s)
  {
    TlsIsClean(s);
    ReadListenIs(s, parts, words, lines, block, start);
    ReadNamesIs(s, parts, words, lines, block, WithListen(start, s));
  }

  lemma BackIsRead(s: Site, parts: seq<seq<Line>>, words: seq<set<Word>>, lines: seq<string>, block: string,
                   start: Site)
    requires Printable(s) && Laid(s, parts, words, lines, block) && Placed(words)
    ensures ReadRoots(ReadIncludes(start, lines), lines) == WithRoots(WithIncludes(start, s), s)
  {
    TlsIsClean(s);
    ReadIncludesIs(s, parts, words, lines, block, start);
    ReadRootsIs(s, parts, words, lines, block, WithIncludes(start, s));
  }

  /** ... and of the locations. */
  lemma LocationsAreRead(s: Site, parts: seq<seq<Line>>, words: seq<set<Word>>, lines: seq<string>, block: string,
                         start: Site)
    requires Printable(s) && Laid(s, parts, words, lines, block) && Placed(words)
    requires start.phpEnabled == false && start.phpMyAdminEnabled == false
    ensures ReadPhp(ReadStatic(ReadProxy(start, block, lines), block, lines), block, lines)
            == WithPhp(WithStatic(WithProxy(start, s), s, Requoted(s.staticCacheControl)), s)
  {
    ReadProxyIs(s, parts, words, lines, block, start);
    ReadStaticIs(s, parts, words, lines, block, WithProxy(start, s));
    ReadPhpIs(s, parts, words, lines, block, WithStatic(WithProxy(start, s), s, Requoted(s.staticCacheControl)));
  }

  lemma ReadingIs(s: Site, parts: seq<seq<Line>>, words: seq<set<Word>>, lines: seq<string>, block: string, idx: nat)
    requires Printable(s) && Laid(s, parts, words, lines, block) && Placed(words)
    ensures ReadPhp(ReadStatic(ReadProxy(ReadHead(BlankSite(idx), lines), block, lines), block, lines), block, lines)
            == Reimported(s, idx)
  {
    HeadIsRead(s, parts, words, lines, block, BlankSite(idx));
    LocationsAreRead(s, parts, words, lines, block, WithHead(BlankSite(idx), s));
    AllTogether(s, idx);
  }

  lemma AllTogether(s: Site, idx: nat)
    ensures WithPhp(WithStatic(WithProxy(WithHead(BlankSite(idx), s), s), s, Requoted(s.staticCacheControl)), s)
            == Reimported(s, idx)
  {
  }

  /** A printed site is imported as itself, up to what was not printed. */
  lemma SiteIsReimported(s: Site, idx: nat)
    requires Printable(s)
    ensures ParsedSite(BlockText(s), idx) == Ok(Reimported(s, idx))
  {
    SiteIsLaid(s);
    WordsArePlaced();
    ReadingIs(s, Parts(s), PartWords(), Split(BlockText(s), '\n'), BlockText(s), idx);
    NamesTrimmed(s.serverName);
    TrimSpaceTrimmed(Join(Names(s.serverName), " "));
  }
}
