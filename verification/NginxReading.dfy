/** What the importer finds in a printed site. */
module NginxReading {
  import opened Text
  import opened NginxScanner
  import opened NginxLines
  import opened NginxLayout
  import opened NginxQuoting
  import opened NginxSites
  import opened NginxParts

  function PartWords(): (w: seq<set<Word>>)
    ensures |w| == 8
  {
    [{Listen, ServerName}, SSL_WORDS, {AddHeader}, {Root, IndexWord}, STATIC_WORDS, PHPMYADMIN_WORDS, PHP_WORDS,
      MAIN_WORDS]
  }

  ghost predicate FineParts(parts: seq<seq<Line>>, words: seq<set<Word>>) {
    |parts| == |words| && forall i :: 0 <= i < |parts| ==> FinePart(parts[i], words[i])
  }

  ghost predicate Printable(s: Site) {
    Normal(s) && ValidSite(s) && Plain(s)
  }

  lemma PartsAreFine(s: Site)
    requires Printable(s)
    ensures FineParts(Parts(s), PartWords())
  {
    HeadIsFine(s);
    SslIsFine(s);
    HeadersAreFine();
    RootsAreFine(s);
    StaticIsFine(s);
    PhpMyAdminIsFine(s);
    PhpIsFine(s);
    MainIsFine(s);
    EightFine(Head(s), SslPart(s), Headers(), Roots(s), StaticPart(s), PhpMyAdminPart(s), PhpPart(s), MainPart(s));
  }

  lemma EightFine(a: seq<Line>, b: seq<Line>, c: seq<Line>, d: seq<Line>, e: seq<Line>, f: seq<Line>, g: seq<Line>,
                  h: seq<Line>)
    requires FinePart(a, {Listen, ServerName}) && FinePart(b, SSL_WORDS) && FinePart(c, {AddHeader})
    requires FinePart(d, {Root, IndexWord}) && FinePart(e, STATIC_WORDS) && FinePart(f, PHPMYADMIN_WORDS)
    requires FinePart(g, PHP_WORDS) && FinePart(h, MAIN_WORDS)
    ensures FineParts([a, b, c, d, e, f, g, h], PartWords())
  {
  }

  // ---------- Lines of all parts

  lemma {:induction false} InFlat(parts: seq<seq<Line>>, l: Line)
    ensures l in Flat(parts) <==> exists i :: 0 <= i < |parts| && l in parts[i]
  {
    if parts != [] {
      InFlat(parts[1..], l);
      assert forall i :: 0 < i < |parts| ==> parts[i] == parts[1..][i - 1];
      if i :| 0 <= i < |parts| && l in parts[i] {
        assert i > 0 ==> l in parts[1..][i - 1];
      }
    }
  }

  lemma {:induction false} FlatIsFine(parts: seq<seq<Line>>, words: seq<set<Word>>)
    requires FineParts(parts, words)
    ensures CleanLines(Flat(parts)) && Nest(Flat(parts), 1) == Some(1)
    ensures forall l :: l in Flat(parts) && l.Stmt? ==> Quiet(l.rest)
  {
    if parts != [] {
      FlatIsFine(parts[1..], words[1..]);
      assert FinePart(parts[0], words[0]);
      NestConcat(parts[0], Flat(parts[1..]), 1);
      forall l | l in parts[0] ensures Clean(l) && (l.Stmt? ==> Quiet(l.rest)) {
        assert Fine(l, words[0]);
      }
    }
  }

  lemma WordlessHasNone(part: seq<Line>, words: set<Word>, w: Word, tail: string)
    requires FinePart(part, words) && w !in words
    ensures FirstRest(part, w, tail) == None
  {
    forall l | l in part && l.Stmt? ensures l.word != w {
      assert Fine(l, words);
    }
    LackingHasNone(part, w, tail);
  }

  /** Parts that cannot hold the word are passed over. */
  lemma {:induction false} FirstInFlat(parts: seq<seq<Line>>, words: seq<set<Word>>, k: nat, w: Word, tail: string)
    requires FineParts(parts, words) && k < |parts| && forall j :: 0 <= j < k ==> w !in words[j]
    ensures FirstRest(Flat(parts), w, tail)
            == if FirstRest(parts[k], w, tail).Some? then FirstRest(parts[k], w, tail)
              else FirstRest(Flat(parts[k + 1..]), w, tail)
  {
    FirstRestConcat(parts[0], Flat(parts[1..]), w, tail);
    if k > 0 {
      WordlessHasNone(parts[0], words[0], w, tail);
      FirstInFlat(parts[1..], words[1..], k - 1, w, tail);
      assert parts[1..][k..] == parts[k + 1..];
    }
  }

  lemma {:induction false} NoneInFlat(parts: seq<seq<Line>>, words: seq<set<Word>>, w: Word, tail: string)
    requires FineParts(parts, words) && forall j :: 0 <= j < |words| ==> w !in words[j]
    ensures FirstRest(Flat(parts), w, tail) == None
  {
    if parts != [] {
      FirstRestConcat(parts[0], Flat(parts[1..]), w, tail);
      WordlessHasNone(parts[0], words[0], w, tail);
      NoneInFlat(parts[1..], words[1..], w, tail);
    }
  }

  lemma OnlyPart(parts: seq<seq<Line>>, words: seq<set<Word>>, k: nat, w: Word, tail: string)
    requires FineParts(parts, words) && k < |parts| && forall j :: 0 <= j < |words| && j != k ==> w !in words[j]
    ensures FirstRest(Flat(parts), w, tail) == FirstRest(parts[k], w, tail)
  {
    FirstInFlat(parts, words, k, w, tail);
    NoneInFlat(parts[k + 1..], words[k + 1..], w, tail);
  }

  lemma FrameHasNone(inner: seq<Line>, w: Word, tail: string)
    requires w != Server
    ensures FirstRest(Block(inner), w, tail) == FirstRest(inner, w, tail)
  {
    FirstRestConcat([Stmt(0, Server, "{")] + inner, [Close(0)], w, tail);
    FirstRestConcat([Stmt(0, Server, "{")], inner, w, tail);
    LackingHasNone([Stmt(0, Server, "{")], w, tail);
    LackingHasNone([Close(0)], w, tail);
  }

  // ---------- The text of a site

  lemma TextIsOneLine(l: Line)
    requires l.Stmt? ==> Tidy(l.rest)
    ensures '\n' !in TextOf(l)
  {
    if l.Stmt? {
      SpellOk(l.word);
    }
  }

  lemma BlockIsTidy(inner: seq<Line>)
    requires CleanLines(inner)
    ensures TidyLines(Block(inner))
  {
    forall l | l in Block(inner) && l.Stmt? ensures Tidy(l.rest) {
      assert l in inner ==> Clean(l);
      assert Tidy("{");
    }
  }

  lemma SiteLinesAreTidy(s: Site)
    requires Printable(s)
    ensures TidyLines(SiteLines(s)) && IsBlock(BlockText(s))
    ensures Split(BlockText(s), '\n') == Texts(SiteLines(s))
  {
    PartsAreFine(s);
    var inner := Flat(Parts(s));
    FlatIsFine(Parts(s), PartWords());
    NestedLinesAreABlock(inner);
    BlockIsTidy(inner);
    TextsSplit(Block(inner));
  }

  lemma TextsSplit(ls: seq<Line>)
    requires ls != [] && TidyLines(ls)
    ensures Split(Join(Texts(ls), "\n"), '\n') == Texts(ls)
  {
    forall t | t in Texts(ls) ensures '\n' !in t {
      var i :| 0 <= i < |ls| && Texts(ls)[i] == t;
      TextsAt(ls, i);
      TextIsOneLine(ls[i]);
    }
    SplitJoin(Texts(ls), '\n');
  }

  /** Parts, what words they may hold, and the lines of the whole block. */
  ghost predicate Shown(parts: seq<seq<Line>>, words: seq<set<Word>>, lines: seq<string>) {
    FineParts(parts, words) && lines == Texts(Block(Flat(parts)))
  }

  lemma SiteIsShown(s: Site)
    requires Printable(s)
    ensures Shown(Parts(s), PartWords(), Split(BlockText(s), '\n'))
  {
    PartsAreFine(s);
    SiteLinesAreTidy(s);
  }

  /** Words printed in one part only. */
  ghost predicate OnlyIn(words: seq<set<Word>>, w: Word, k: nat) {
    k < |words| && w != Server && forall j :: 0 <= j < |words| && j != k ==> w !in words[j]
  }

  /** A directive printed in part `k` only is read back as it was printed there. */
  lemma DirectiveOfPart(parts: seq<seq<Line>>, words: seq<set<Word>>, lines: seq<string>, k: nat, name: string,
                        w: Word, tail: string)
    requires Shown(parts, words, lines) && OnlyIn(words, w, k) && IsNamed(name, w, tail)
    ensures var r := FirstRest(parts[k], w, tail);
            Directive(lines, name) == if r.None? then "" else Value(" " + r.value)
  {
    FlatIsFine(parts, words);
    BlockIsTidy(Flat(parts));
    DirectiveOfLines(Block(Flat(parts)), name, w, tail);
    FrameHasNone(Flat(parts), w, tail);
    OnlyPart(parts, words, k, w, tail);
  }

  // ---------- Directives

  lemma SettingRest(indent: nat, word: Word, value: string, w: Word)
    ensures FirstRest([Setting(indent, word, value)], w, "") == if w == word then Some(value + ";") else None
    ensures FirstRest(SettingUnlessEmpty(indent, word, value), w, "")
            == if w == word && value != "" then Some(value + ";") else None
  {
    var l := Setting(indent, word, value);
    assert FirstRest([l][1..], w, "") == None;
    assert l.rest[0..] == l.rest;
  }

  /** What is read back of a printed value: itself. */
  lemma ReadBack(value: string)
    requires Trimmed(value) && '#' !in value + ";"
    ensures Value(" " + (value + ";")) == value
  {
    assert forall i :: 0 <= i < |value| ==> value[i] == (value + ";")[i];
    ValueReadsBack(value);
    assert " " + (value + ";") == " " + value + ";";
  }

  function Printed(value: string): Option<string> {
    if value == "" then None else Some(value + ";")
  }

  lemma PrintedReadsBack(value: string, r: Option<string>)
    requires Trimmed(value) && '#' !in value + ";" && (r == Printed(value) || r == Some(value + ";"))
    ensures (if r.None? then "" else Value(" " + r.value)) == value
  {
    if r.Some? {
      ReadBack(value);
    }
  }

  /** A value printed in its part is what the importer reads. */
  lemma SettingDirective(parts: seq<seq<Line>>, words: seq<set<Word>>, lines: seq<string>, k: nat, w: Word,
                         value: string)
    requires Shown(parts, words, lines) && OnlyIn(words, w, k)
    requires FirstRest(parts[k], w, "") == Printed(value) || FirstRest(parts[k], w, "") == Some(value + ";")
    requires Trimmed(value) && '#' !in value + ";"
    ensures Directive(lines, Spell(w)) == value
  {
    PlainName(w);
    DirectiveOfPart(parts, words, lines, k, Spell(w), w, "");
    PrintedReadsBack(value, FirstRest(parts[k], w, ""));
  }

  lemma HeadDirectives(s: Site, parts: seq<seq<Line>>, words: seq<set<Word>>, lines: seq<string>)
    requires Shown(parts, words, lines) && OnlyIn(words, Listen, 0) && OnlyIn(words, ServerName, 0)
    requires s.listenPort >= 0 && ValidNames(s.serverName) && PlainText(Join(Names(s.serverName), " ") + ";")
    requires parts[0] == Head(s)
    ensures Directive(lines, Spell(Listen)) == ListenValue(s)
    ensures Directive(lines, Spell(ServerName)) == Join(Names(s.serverName), " ")
  {
    HeadRests(s);
    NumeralChars(s.listenPort);
    ListenIsPlain(Itoa(s.listenPort), s.ssl, s.http2);
    NamesTrimmed(s.serverName);
    SettingDirective(parts, words, lines, 0, Listen, ListenValue(s));
    SettingDirective(parts, words, lines, 0, ServerName, Join(Names(s.serverName), " "));
  }

  lemma HeadRests(s: Site)
    requires s.listenPort >= 0
    ensures FirstRest(Head(s), Listen, "") == Some(ListenValue(s) + ";")
    ensures FirstRest(Head(s), ServerName, "") == Some(Join(Names(s.serverName), " ") + ";")
  {
    var a, b := [Setting(1, Listen, ListenValue(s))], [Setting(1, ServerName, Join(Names(s.serverName), " "))];
    assert Head(s) == a + b;
    FirstRestConcat(a, b, Listen, "");
    FirstRestConcat(a, b, ServerName, "");
    SettingRest(1, Listen, ListenValue(s), Listen);
    SettingRest(1, Listen, ListenValue(s), ServerName);
    SettingRest(1, ServerName, Join(Names(s.serverName), " "), ServerName);
  }

  lemma SslRests(s: Site, w: Word)
    requires s.ssl && w in SSL_WORDS
    ensures FirstRest(SslPart(s), w, "")
            == Printed(if w == SslCertificate then s.certPath else if w == SslCertificateKey then s.keyPath
                       else if w == Include then s.sslConfigPath else s.sslDhParamPath)
  {
    var a, b := SettingUnlessEmpty(1, SslCertificate, s.certPath), SettingUnlessEmpty(1, SslCertificateKey, s.keyPath);
    var c, d := SettingUnlessEmpty(1, Include, s.sslConfigPath), SettingUnlessEmpty(1, SslDhParam, s.sslDhParamPath);
    FirstRestConcat(a + b + c, d, w, "");
    FirstRestConcat(a + b, c, w, "");
    FirstRestConcat(a, b, w, "");
    SettingRest(1, SslCertificate, s.certPath, w);
    SettingRest(1, SslCertificateKey, s.keyPath, w);
    SettingRest(1, Include, s.sslConfigPath, w);
    SettingRest(1, SslDhParam, s.sslDhParamPath, w);
  }

  lemma NoSsl(s: Site, w: Word)
    requires !s.ssl
    ensures FirstRest(SslPart(s), w, "") == None
  {
  }

  function SslValue(s: Site, w: Word): string {
    if !s.ssl then ""
    else if w == SslCertificate then s.certPath else if w == SslCertificateKey then s.keyPath
    else if w == Include then s.sslConfigPath else s.sslDhParamPath
  }

  lemma SslDirective(s: Site, parts: seq<seq<Line>>, words: seq<set<Word>>, lines: seq<string>, w: Word)
    requires Shown(parts, words, lines) && OnlyIn(words, w, 1) && parts[1] == SslPart(s) && w in SSL_WORDS
    requires Trimmed(SslValue(s, w)) && '#' !in SslValue(s, w) + ";"
    ensures Directive(lines, Spell(w)) == SslValue(s, w)
  {
    if s.ssl {
      SslRests(s, w);
    } else {
      NoSsl(s, w);
    }
    SettingDirective(parts, words, lines, 1, w, SslValue(s, w));
  }

  lemma RootRests(s: Site)
    ensures FirstRest(Roots(s), Root, "") == Printed(s.rootPath)
    ensures FirstRest(Roots(s), IndexWord, "") == Printed(s.indexFiles)
  {
    var a, b := SettingUnlessEmpty(1, Root, s.rootPath), SettingUnlessEmpty(1, IndexWord, s.indexFiles);
    FirstRestConcat(a + b, [Blank], Root, "");
    FirstRestConcat(a, b, Root, "");
    FirstRestConcat(a + b, [Blank], IndexWord, "");
    FirstRestConcat(a, b, IndexWord, "");
    SettingRest(1, Root, s.rootPath, Root);
    SettingRest(1, Root, s.rootPath, IndexWord);
    SettingRest(1, IndexWord, s.indexFiles, Root);
    SettingRest(1, IndexWord, s.indexFiles, IndexWord);
    LackingHasNone([Blank], Root, "");
    LackingHasNone([Blank], IndexWord, "");
  }

  lemma RootDirective(s: Site, parts: seq<seq<Line>>, words: seq<set<Word>>, lines: seq<string>)
    requires Shown(parts, words, lines) && OnlyIn(words, Root, 3) && parts[3] == Roots(s)
    requires Trimmed(s.rootPath) && '#' !in s.rootPath + ";"
    ensures Directive(lines, Spell(Root)) == s.rootPath
  {
    RootRests(s);
    SettingDirective(parts, words, lines, 3, Root, s.rootPath);
  }

  /** The first of two parts that may hold a word decides, if it holds it. */
  lemma FirstDirective(parts: seq<seq<Line>>, words: seq<set<Word>>, lines: seq<string>, k: nat, w: Word, value: string)
    requires Shown(parts, words, lines) && k < |parts| && w != Server && forall j :: 0 <= j < k ==> w !in words[j]
    requires FirstRest(parts[k], w, "") == Some(value + ";") && Trimmed(value) && '#' !in value + ";"
    ensures Directive(lines, Spell(w)) == value
  {
    PlainName(w);
    FlatIsFine(parts, words);
    BlockIsTidy(Flat(parts));
    DirectiveOfLines(Block(Flat(parts)), Spell(w), w, "");
    FrameHasNone(Flat(parts), w, "");
    FirstInFlat(parts, words, k, w, "");
    ReadBack(value);
  }

  lemma IndexDirective(s: Site, parts: seq<seq<Line>>, words: seq<set<Word>>, lines: seq<string>)
    requires Shown(parts, words, lines) && |parts| == 8 && parts[3] == Roots(s)
    requires forall j :: 0 <= j < 3 ==> IndexWord !in words[j]
    requires s.indexFiles != "" && Trimmed(s.indexFiles) && '#' !in s.indexFiles + ";"
    ensures Directive(lines, Spell(IndexWord)) == s.indexFiles
  {
    RootRests(s);
    FirstDirective(parts, words, lines, 3, IndexWord, s.indexFiles);
  }

  // ---------- Directives of locations

  lemma LocationRest(location: string, inner: seq<Line>, w: Word, tail: string)
    requires w != Location
    ensures FirstRest(LocationOf(location, inner), w, tail) == FirstRest(inner, w, tail)
    ensures FirstRest(LocationOf(location, inner) + [Blank], w, tail) == FirstRest(inner, w, tail)
  {
    FirstRestConcat(LocationOf(location, inner), [Blank], w, tail);
    FirstRestConcat([Stmt(1, Location, location)] + inner, [Close(1)], w, tail);
    FirstRestConcat([Stmt(1, Location, location)], inner, w, tail);
    LackingHasNone([Stmt(1, Location, location)], w, tail);
    LackingHasNone([Close(1)], w, tail);
    LackingHasNone([Blank], w, tail);
  }

  lemma OtherWord(indent: nat, word: Word, rest: string, w: Word, tail: string)
    requires w != word
    ensures FirstRest([Stmt(indent, word, rest)], w, tail) == None
  {
    LackingHasNone([Stmt(indent, word, rest)], w, tail);
  }

  lemma SameWord(indent: nat, word: Word, rest: string)
    ensures FirstRest([Stmt(indent, word, rest)], word, "") == Some(rest)
  {
    assert rest[0..] == rest;
  }

  /** The five pieces of the static location, one after another. */
  lemma StaticRest(s: Site, w: Word, tail: string)
    ensures var c := if s.accessLogOffStatic then [Stmt(2, AccessLog, "off;")] else [];
            var a := FirstRest([Setting(2, Alias, s.staticAliasPath)], w, tail);
            var b := FirstRest([Stmt(2, TryFiles, TRY_FILE)], w, tail);
            var d := FirstRest(SettingUnlessEmpty(2, Expires, s.staticExpires), w, tail);
            FirstRest(StaticInner(s), w, tail)
            == if a.Some? then a else if b.Some? then b else if FirstRest(c, w, tail).Some? then FirstRest(c, w, tail)
               else if d.Some? then d else FirstRest(CacheControl(s), w, tail)
  {
    var a, b := [Setting(2, Alias, s.staticAliasPath)], [Stmt(2, TryFiles, TRY_FILE)];
    var c := if s.accessLogOffStatic then [Stmt(2, AccessLog, "off;")] else [];
    var d := SettingUnlessEmpty(2, Expires, s.staticExpires);
    FirstRestConcat(a + b + c + d, CacheControl(s), w, tail);
    FirstRestConcat(a + b + c, d, w, tail);
    FirstRestConcat(a + b, c, w, tail);
    FirstRestConcat(a, b, w, tail);
  }

  lemma AliasRest(s: Site)
    ensures FirstRest(StaticInner(s), Alias, "") == Some(s.staticAliasPath + ";")
  {
    StaticRest(s, Alias, "");
    SettingRest(2, Alias, s.staticAliasPath, Alias);
  }

  lemma ExpiresRest(s: Site)
    requires s.staticExpires != ""
    ensures FirstRest(StaticInner(s), Expires, "") == Some(s.staticExpires + ";")
  {
    StaticRest(s, Expires, "");
    SettingRest(2, Alias, s.staticAliasPath, Expires);
    OtherWord(2, TryFiles, TRY_FILE, Expires, "");
    OtherWord(2, AccessLog, "off;", Expires, "");
    SettingRest(2, Expires, s.staticExpires, Expires);
  }

  const CACHE := "Cache-Control "

  lemma CacheRest(s: Site)
    requires s.staticCacheControl != ""
    ensures FirstRest(StaticInner(s), AddHeader, CACHE) == Some(Quote(s.staticCacheControl) + ";")
  {
    StaticRest(s, AddHeader, CACHE);
    LackingHasNone([Setting(2, Alias, s.staticAliasPath)], AddHeader, CACHE);
    OtherWord(2, TryFiles, TRY_FILE, AddHeader, CACHE);
    OtherWord(2, AccessLog, "off;", AddHeader, CACHE);
    LackingHasNone(SettingUnlessEmpty(2, Expires, s.staticExpires), AddHeader, CACHE);
    TailRest(2, AddHeader, CACHE, Quote(s.staticCacheControl));
  }

  lemma TailRest(indent: nat, w: Word, tail: string, value: string)
    ensures FirstRest([Setting(indent, w, tail + value)], w, tail) == Some(value + ";")
  {
    var rest := tail + value + ";";
    assert rest == tail + (value + ";");
    assert rest[..|tail|] == tail && rest[|tail|..] == value + ";";
  }

  /** The statements of a FastCGI location other than its pass. */
  lemma IncludeRest(socket: string)
    ensures FirstRest(FastCgiInner(socket), Include, "") == Some("fastcgi_params;")
  {
    var a, b := [Stmt(2, Include, "fastcgi_params;")], [Stmt(2, FastcgiParam, SCRIPT)];
    FirstRestConcat(a + b, [Setting(2, FastcgiPass, "unix:" + socket)], Include, "");
    FirstRestConcat(a, b, Include, "");
    SameWord(2, Include, "fastcgi_params;");
  }

  lemma PhpMyAdminInclude(s: Site)
    ensures FirstRest(PhpMyAdminPart(s), Include, "") == if s.phpMyAdminEnabled then Some("fastcgi_params;") else None
  {
    if s.phpMyAdminEnabled {
      FirstRestConcat(LocationOf(PHPMYADMIN, PhpMyAdminIndex()) + [Blank],
                      LocationOf(PHPMYADMIN_PHP, FastCgiInner(s.phpMyAdminSocket)) + [Blank], Include, "");
      LocationRest(PHPMYADMIN, PhpMyAdminIndex(), Include, "");
      LackingHasNone(PhpMyAdminIndex(), Include, "");
      LocationRest(PHPMYADMIN_PHP, FastCgiInner(s.phpMyAdminSocket), Include, "");
      IncludeRest(s.phpMyAdminSocket);
    }
  }

  lemma PhpInclude(s: Site)
    ensures FirstRest(PhpPart(s), Include, "") == if s.phpEnabled then Some("fastcgi_params;") else None
  {
    if s.phpEnabled {
      LocationRest(PHP, FastCgiInner(s.phpSocket), Include, "");
      IncludeRest(s.phpSocket);
    }
  }

  lemma ProxyPassRest(s: Site)
    ensures FirstRest(MainPart(s), ProxyPass, "") == if s.mode == "proxy" then Some(s.proxyPassUrl + ";") else None
  {
    if s.mode == "proxy" {
      LocationRest(ROOT, ProxyInner(s), ProxyPass, "");
      var a, b := [Setting(2, ProxyPass, s.proxyPassUrl)], [Stmt(2, ProxyHttpVersion, "1.1;")];
      var c := if s.proxyBufferingOff then [Stmt(2, ProxyBuffering, "off;")] else [];
      FirstRestConcat(a + b + ProxyHeaders(), c, ProxyPass, "");
      FirstRestConcat(a + b, ProxyHeaders(), ProxyPass, "");
      FirstRestConcat(a, b, ProxyPass, "");
      SettingRest(2, ProxyPass, s.proxyPassUrl, ProxyPass);
    } else {
      LocationRest(ROOT, [Stmt(2, TryFiles, TRY_FILES)], ProxyPass, "");
      OtherWord(2, TryFiles, TRY_FILES, ProxyPass, "");
    }
  }

  lemma ProxyPassDirective(s: Site, parts: seq<seq<Line>>, words: seq<set<Word>>, lines: seq<string>)
    requires Shown(parts, words, lines) && OnlyIn(words, ProxyPass, 7) && parts[7] == MainPart(s)
    requires s.mode == "proxy" && Trimmed(s.proxyPassUrl) && '#' !in s.proxyPassUrl + ";"
    ensures Directive(lines, Spell(ProxyPass)) == s.proxyPassUrl
  {
    ProxyPassRest(s);
    SettingDirective(parts, words, lines, 7, ProxyPass, s.proxyPassUrl);
  }

  lemma StaticDirectives(s: Site, parts: seq<seq<Line>>, words: seq<set<Word>>, lines: seq<string>)
    requires Shown(parts, words, lines) && OnlyIn(words, Alias, 4) && OnlyIn(words, Expires, 4)
            && parts[4] == StaticPart(s)
    requires s.staticAliasPath != "" && Trimmed(s.staticAliasPath) && '#' !in s.staticAliasPath + ";"
    requires s.staticExpires != "" && Trimmed(s.staticExpires) && '#' !in s.staticExpires + ";"
    ensures Directive(lines, Spell(Alias)) == s.staticAliasPath && Directive(lines, Spell(Expires)) == s.staticExpires
  {
    LocationRest(STATIC, StaticInner(s), Alias, "");
    LocationRest(STATIC, StaticInner(s), Expires, "");
    AliasRest(s);
    ExpiresRest(s);
    SettingDirective(parts, words, lines, 4, Alias, s.staticAliasPath);
    SettingDirective(parts, words, lines, 4, Expires, s.staticExpires);
  }

  /** Parts without a match are passed over. */
  lemma {:induction false} FirstMatch(parts: seq<seq<Line>>, k: nat, w: Word, tail: string)
    requires k <= |parts| && forall j :: 0 <= j < k ==> FirstRest(parts[j], w, tail) == None
    ensures FirstRest(Flat(parts), w, tail) == FirstRest(Flat(parts[k..]), w, tail)
  {
    if k > 0 {
      FirstRestConcat(parts[0], Flat(parts[1..]), w, tail);
      FirstMatch(parts[1..], k - 1, w, tail);
      assert parts[1..][k - 1..] == parts[k..];
    }
  }

  lemma OtherStart(indent: nat, word: Word, rest: string, tail: string)
    requires rest != "" && tail != "" && rest[0] != tail[0]
    ensures FirstRest([Stmt(indent, word, rest)], word, tail) == None
  {
  }

  lemma HeadersHaveNoCache()
    ensures FirstRest(Headers(), AddHeader, CACHE) == None
  {
    OtherStart(1, AddHeader, CONTENT_TYPE, CACHE);
    OtherStart(1, AddHeader, FRAME, CACHE);
    OtherStart(1, AddHeader, REFERRER, CACHE);
    OtherStart(1, AddHeader, PERMISSIONS, CACHE);
    NoneOfFour(Stmt(1, AddHeader, CONTENT_TYPE), Stmt(1, AddHeader, FRAME),
               Stmt(1, AddHeader, REFERRER), Stmt(1, AddHeader, PERMISSIONS), AddHeader, CACHE);
  }

  lemma NoneOfFour(a: Line, b: Line, c: Line, d: Line, w: Word, tail: string)
    requires FirstRest([a], w, tail) == None && FirstRest([b], w, tail) == None
    requires FirstRest([c], w, tail) == None && FirstRest([d], w, tail) == None
    ensures FirstRest([a, b, c, d], w, tail) == None
  {
    FirstRestConcat([a], [b], w, tail);
    FirstRestConcat([c], [d], w, tail);
    FirstRestConcat([a] + [b], [c] + [d], w, tail);
    assert [a, b, c, d] == ([a] + [b]) + ([c] + [d]);
  }

  lemma CacheIsNamed()
    ensures IsNamed("add_header Cache-Control", AddHeader, CACHE)
  {
  }

  lemma DirectiveOfFlat(parts: seq<seq<Line>>, words: seq<set<Word>>, lines: seq<string>, name: string, w: Word,
                        tail: string)
    requires Shown(parts, words, lines) && w != Server && IsNamed(name, w, tail)
    ensures var r := FirstRest(Flat(parts), w, tail);
            Directive(lines, name) == if r.None? then "" else Value(" " + r.value)
  {
    FlatIsFine(parts, words);
    BlockIsTidy(Flat(parts));
    DirectiveOfLines(Block(Flat(parts)), name, w, tail);
    FrameHasNone(Flat(parts), w, tail);
  }

  lemma FifthDecides(parts: seq<seq<Line>>, words: seq<set<Word>>, w: Word, tail: string)
    requires FineParts(parts, words) && |parts| == 8
    requires w !in words[0] && w !in words[1] && FirstRest(parts[2], w, tail) == None && w !in words[3]
    requires FirstRest(parts[4], w, tail).Some?
    ensures FirstRest(Flat(parts), w, tail) == FirstRest(parts[4], w, tail)
  {
    WordlessHasNone(parts[0], words[0], w, tail);
    WordlessHasNone(parts[1], words[1], w, tail);
    WordlessHasNone(parts[3], words[3], w, tail);
    FirstMatch(parts, 4, w, tail);
    HeadDecides(parts[4..], w, tail);
  }

  lemma CacheInFlat(s: Site, parts: seq<seq<Line>>, words: seq<set<Word>>)
    requires FineParts(parts, words) && |parts| == 8 && parts[4] == StaticPart(s) && parts[2] == Headers()
    requires AddHeader !in words[0] && AddHeader !in words[1] && AddHeader !in words[3]
    requires s.staticAliasPath != "" && s.staticCacheControl != ""
    ensures FirstRest(Flat(parts), AddHeader, CACHE) == Some(Quote(s.staticCacheControl) + ";")
  {
    HeadersHaveNoCache();
    StaticCache(s);
    FifthDecides(parts, words, AddHeader, CACHE);
  }

  lemma HeadDecides(parts: seq<seq<Line>>, w: Word, tail: string)
    requires parts != [] && FirstRest(parts[0], w, tail).Some?
    ensures FirstRest(Flat(parts), w, tail) == FirstRest(parts[0], w, tail)
  {
    FirstRestConcat(parts[0], Flat(parts[1..]), w, tail);
  }

  lemma StaticCache(s: Site)
    requires s.staticAliasPath != "" && s.staticCacheControl != ""
    ensures FirstRest(StaticPart(s), AddHeader, CACHE) == Some(Quote(s.staticCacheControl) + ";")
  {
    LocationRest(STATIC, StaticInner(s), AddHeader, CACHE);
    CacheRest(s);
  }

  lemma CacheDirective(s: Site, parts: seq<seq<Line>>, words: seq<set<Word>>, lines: seq<string>)
    requires Shown(parts, words, lines) && |parts| == 8 && parts[4] == StaticPart(s) && parts[2] == Headers()
    requires AddHeader !in words[0] && AddHeader !in words[1] && AddHeader !in words[3]
    requires s.staticAliasPath != "" && s.staticCacheControl != "" && '#' !in Quote(s.staticCacheControl) + ";"
    ensures Directive(lines, "add_header Cache-Control") == Quote(s.staticCacheControl)
  {
    CacheIsNamed();
    DirectiveOfFlat(parts, words, lines, "add_header Cache-Control", AddHeader, CACHE);
    CacheInFlat(s, parts, words);
    QuoteReadsBack(s.staticCacheControl);
  }

  lemma QuoteReadsBack(s: string)
    requires '#' !in Quote(s) + ";"
    ensures Value(" " + (Quote(s) + ";")) == Quote(s)
  {
    ReadBack(Quote(s));
  }

  /** The include of the site itself, else that of a FastCGI location, else none. */
  lemma IncludeDirective(s: Site, parts: seq<seq<Line>>, words: seq<set<Word>>, lines: seq<string>)
    requires Shown(parts, words, lines) && |parts| == 8
    requires parts[1] == SslPart(s) && parts[5] == PhpMyAdminPart(s) && parts[6] == PhpPart(s)
    requires forall j :: 0 <= j < 8 && j != 1 && j != 5 && j != 6 ==> Include !in words[j]
    requires Trimmed(SslValue(s, Include)) && '#' !in SslValue(s, Include) + ";"
    ensures Directive(lines, Spell(Include))
            == if SslValue(s, Include) != "" then SslValue(s, Include)
               else if s.phpMyAdminEnabled || s.phpEnabled then "fastcgi_params" else ""
  {
    if SslValue(s, Include) != "" {
      SslRests(s, Include);
      FirstDirective(parts, words, lines, 1, Include, SslValue(s, Include));
    } else {
      IncludeWithoutSsl(s, parts, words, lines);
    }
  }

  lemma IncludeInFlat(s: Site, parts: seq<seq<Line>>, words: seq<set<Word>>)
    requires FineParts(parts, words) && |parts| == 8
    requires parts[1] == SslPart(s) && parts[5] == PhpMyAdminPart(s) && parts[6] == PhpPart(s)
    requires forall j :: 0 <= j < 8 && j != 1 && j != 5 && j != 6 ==> Include !in words[j]
    requires SslValue(s, Include) == ""
    ensures FirstRest(Flat(parts), Include, "")
            == if s.phpMyAdminEnabled || s.phpEnabled then Some("fastcgi_params;") else None
  {
    NoSslInclude(s);
    forall j | 0 <= j < 5 ensures FirstRest(parts[j], Include, "") == None {
      if j != 1 {
        WordlessHasNone(parts[j], words[j], Include, "");
      }
    }
    FirstMatch(parts, 5, Include, "");
    PhpMyAdminInclude(s);
    PhpInclude(s);
    LastThree(parts[5..], Include);
    WordlessHasNone(parts[7], words[7], Include, "");
  }

  lemma NoSslInclude(s: Site)
    requires SslValue(s, Include) == ""
    ensures FirstRest(SslPart(s), Include, "") == None
  {
    if s.ssl {
      SslRests(s, Include);
    } else {
      NoSsl(s, Include);
    }
  }

  lemma IncludeWithoutSsl(s: Site, parts: seq<seq<Line>>, words: seq<set<Word>>, lines: seq<string>)
    requires Shown(parts, words, lines) && |parts| == 8
    requires parts[1] == SslPart(s) && parts[5] == PhpMyAdminPart(s) && parts[6] == PhpPart(s)
    requires forall j :: 0 <= j < 8 && j != 1 && j != 5 && j != 6 ==> Include !in words[j]
    requires SslValue(s, Include) == ""
    ensures Directive(lines, Spell(Include)) == if s.phpMyAdminEnabled || s.phpEnabled then "fastcgi_params" else ""
  {
    PlainName(Include);
    DirectiveOfFlat(parts, words, lines, Spell(Include), Include, "");
    IncludeInFlat(s, parts, words);
    ParamsReadBack();
  }

  lemma ParamsReadBack()
    ensures Value(" " + "fastcgi_params;") == "fastcgi_params"
  {
    ReadBack("fastcgi_params");
    assert "fastcgi_params" + ";" == "fastcgi_params;";
  }

  lemma LastThree(parts: seq<seq<Line>>, w: Word)
    requires |parts| == 3
    ensures var a, b, c := FirstRest(parts[0], w, ""), FirstRest(parts[1], w, ""), FirstRest(parts[2], w, "");
            FirstRest(Flat(parts), w, "") == if a.Some? then a else if b.Some? then b else c
  {
    FirstRestConcat(parts[0], Flat(parts[1..]), w, "");
    FirstRestConcat(parts[1], Flat(parts[1..][1..]), w, "");
    assert parts[1..][1..] == [parts[2]];
    assert Flat([parts[2]]) == parts[2] + Flat([parts[2]][1..]) == parts[2];
  }
}
