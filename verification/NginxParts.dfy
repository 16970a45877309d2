/** What each part of a printed site holds: its words, its nesting, and no directive text inside
    values. */
module NginxParts {
  import opened Text
  import opened NginxScanner
  import opened NginxLines
  import opened NginxLayout
  import opened NginxQuoting
  import opened NginxSites

  // ---------- Texts the importer looks for

  const N_STATIC := "location /static/"
  const N_PHPMYADMIN := "location /phpmyadmin/"
  const N_PHP := "location ~ \\.php$"
  const N_PROXY := "proxy_pass "
  const N_BUFFERING := "proxy_buffering off;"
  const N_LOG := "access_log off;"

  /** None of them occurs. */
  predicate Quiet(rest: string) {
    && !Contains(rest, N_STATIC) && !Contains(rest, N_PHPMYADMIN) && !Contains(rest, N_PHP)
    && !Contains(rest, N_PROXY) && !Contains(rest, N_BUFFERING) && !Contains(rest, N_LOG)
  }

  lemma QuietWithout(rest: string, a: char, b: char, c: char, d: char, e: char, f: char)
    requires a in N_STATIC && b in N_PHPMYADMIN && c in N_PHP && d in N_PROXY && e in N_BUFFERING && f in N_LOG
    requires a !in rest && b !in rest && c !in rest && d !in rest && e !in rest && f !in rest
    ensures Quiet(rest)
  {
    LacksChar(rest, N_STATIC, a);
    LacksChar(rest, N_PHPMYADMIN, b);
    LacksChar(rest, N_PHP, c);
    LacksChar(rest, N_PROXY, d);
    LacksChar(rest, N_BUFFERING, e);
    LacksChar(rest, N_LOG, f);
  }

  lemma NeedleChars()
    ensures 'o' in N_STATIC && 'o' in N_PHPMYADMIN && 'o' in N_PHP && 'o' in N_PROXY && 'o' in N_BUFFERING
            && 'o' in N_LOG
    ensures ' ' in N_STATIC && ' ' in N_PHPMYADMIN && ' ' in N_PHP && ' ' in N_PROXY && ' ' in N_BUFFERING
            && ' ' in N_LOG
    ensures '/' in N_STATIC && '/' in N_PHPMYADMIN && '~' in N_PHP && '_' in N_PROXY && '_' in N_BUFFERING
            && '_' in N_LOG
    ensures 'l' in N_STATIC && 'l' in N_PHPMYADMIN && 'l' in N_PHP && 's' in N_PROXY && 'b' in N_BUFFERING
            && 'l' in N_LOG
    ensures 's' in N_LOG && 'x' in N_PROXY && 'x' in N_BUFFERING && 'g' in N_LOG
  {
    assert N_STATIC[1] == 'o' && N_STATIC[8] == ' ' && N_STATIC[9] == '/' && N_STATIC[0] == 'l';
    assert N_PHPMYADMIN[1] == 'o' && N_PHPMYADMIN[8] == ' ' && N_PHPMYADMIN[9] == '/' && N_PHPMYADMIN[0] == 'l';
    assert N_PHP[1] == 'o' && N_PHP[8] == ' ' && N_PHP[9] == '~' && N_PHP[0] == 'l';
    assert N_PROXY[2] == 'o' && N_PROXY[10] == ' ' && N_PROXY[5] == '_' && N_PROXY[8] == 's' && N_PROXY[3] == 'x';
    assert N_BUFFERING[2] == 'o' && N_BUFFERING[15] == ' ' && N_BUFFERING[5] == '_' && N_BUFFERING[6] == 'b'
      && N_BUFFERING[3] == 'x';
    assert N_LOG[8] == 'o' && N_LOG[10] == ' ' && N_LOG[6] == '_' && N_LOG[7] == 'l' && N_LOG[4] == 's'
      && N_LOG[9] == 'g';
  }

  lemma QuietWithoutO(rest: string)
    requires 'o' !in rest
    ensures Quiet(rest)
  {
    NeedleChars();
    QuietWithout(rest, 'o', 'o', 'o', 'o', 'o', 'o');
  }

  lemma QuietWithoutSpace(rest: string)
    requires ' ' !in rest
    ensures Quiet(rest)
  {
    NeedleChars();
    QuietWithout(rest, ' ', ' ', ' ', ' ', ' ', ' ');
  }

  lemma QuietWithoutSigns(rest: string)
    requires '/' !in rest && '~' !in rest && '_' !in rest
    ensures Quiet(rest)
  {
    NeedleChars();
    QuietWithout(rest, '/', '/', '~', '_', '_', '_');
  }

  // ---------- Values

  /** A value as it stands in its line, semicolon included: no line break, comment sign or brace,
      and no text the importer looks for. */
  predicate PlainText(rest: string) {
    Braceless(rest) && '\n' !in rest && Quiet(rest)
  }

  /** The values a site prints are plain; the quoted one is Latin-1 text. */
  predicate Plain(s: Site) {
    && PlainText(Join(Names(s.serverName), " ") + ";")
    && (s.ssl ==> PlainText(s.certPath + ";") && PlainText(s.keyPath + ";")
                  && PlainText(s.sslConfigPath + ";") && PlainText(s.sslDhParamPath + ";"))
    && PlainText(s.rootPath + ";") && PlainText(s.indexFiles + ";")
    && (s.staticAliasPath != "" ==>
          && PlainText(s.staticAliasPath + ";") && PlainText(s.staticExpires + ";")
          && PlainText("Cache-Control " + Quote(s.staticCacheControl) + ";") && Latin1(s.staticCacheControl))
    && (s.phpMyAdminEnabled ==> PlainText("unix:" + s.phpMyAdminSocket + ";"))
    && (s.phpEnabled ==> PlainText("unix:" + s.phpSocket + ";"))
    && (s.mode == "proxy" ==> PlainText(s.proxyPassUrl + ";"))
  }

  /** What normalisation leaves. */
  predicate NormalHead(s: Site) {
    && s.id != "" && Trimmed(s.id) && s.serverName != "" && Trimmed(s.serverName)
    && s.mode != "" && ToLower(TrimSpace(s.mode)) == s.mode && s.listenPort > 0
  }

  predicate NormalValues(s: Site) {
    && Trimmed(s.certPath) && Trimmed(s.keyPath) && Trimmed(s.sslConfigPath) && Trimmed(s.sslDhParamPath)
    && Trimmed(s.rootPath) && Trimmed(s.indexFiles) && s.indexFiles != ""
    && Trimmed(s.proxyPassUrl) && Trimmed(s.staticAliasPath)
    && Trimmed(s.staticExpires) && s.staticExpires != "" && Trimmed(s.staticCacheControl) && s.staticCacheControl != ""
    && Trimmed(s.phpSocket) && Trimmed(s.phpMyAdminSocket)
  }

  predicate Normal(s: Site) {
    NormalHead(s) && NormalValues(s)
  }

  // ---------- Parts

  predicate Fine(l: Line, words: set<Word>) {
    Clean(l) && (l.Stmt? ==> Quiet(l.rest) && l.word in words)
  }

  predicate FinePart(part: seq<Line>, words: set<Word>) {
    (forall l :: l in part ==> Fine(l, words)) && Nest(part, 1) == Some(1)
  }

  lemma FineConcat(a: seq<Line>, b: seq<Line>, words: set<Word>)
    requires FinePart(a, words) && FinePart(b, words)
    ensures FinePart(a + b, words)
  {
    NestConcat(a, b, 1);
  }

  lemma FineOne(l: Line, words: set<Word>)
    requires Fine(l, words) && !l.Close? && (l.Stmt? ==> l.word != Location)
    ensures FinePart([l], words)
  {
    assert Nest([l], 1) == Nest([l][1..], 1);
  }

  lemma FineSetting(indent: nat, word: Word, value: string, words: set<Word>)
    requires Trimmed(value) && PlainText(value + ";") && word in words && word != Location
    ensures FinePart([Setting(indent, word, value)], words) && FinePart(SettingUnlessEmpty(indent, word, value), words)
  {
    assert Trimmed(value + ";");
    FineOne(Setting(indent, word, value), words);
  }

  lemma FineLiteral(indent: nat, word: Word, rest: string, words: set<Word>)
    requires rest != "" && Trimmed(rest) && PlainText(rest) && word in words && word != Location
    ensures FinePart([Stmt(indent, word, rest)], words)
  {
    FineOne(Stmt(indent, word, rest), words);
  }

  lemma FineEmpty(words: set<Word>)
    ensures FinePart([], words)
  {
  }

  /** Statements that open nothing leave the depth as it is. */
  lemma {:induction false} FlatNests(ls: seq<Line>, d: nat)
    requires forall i :: 0 <= i < |ls| ==> !ls[i].Close? && (ls[i].Stmt? ==> ls[i].word != Location)
    ensures Nest(ls, d) == Some(d)
  {
    if ls != [] {
      FlatNests(ls[1..], d);
    }
  }

  const SSL_WORDS: set<Word> := {SslCertificate, SslCertificateKey, Include, SslDhParam}
  const STATIC_WORDS: set<Word> := {Location, Alias, TryFiles, AccessLog, Expires, AddHeader}
  const PHPMYADMIN_WORDS: set<Word> := {Location, IndexWord, TryFiles, Include, FastcgiParam, FastcgiPass}
  const PHP_WORDS: set<Word> := {Location, Include, FastcgiParam, FastcgiPass}
  const MAIN_WORDS: set<Word> := {Location, ProxyPass, ProxyHttpVersion, ProxySetHeader, ProxyBuffering, TryFiles}

  lemma {:induction false} NumeralChars(n: nat)
    ensures var t := Itoa(n); t != "" && '0' <= t[0] <= '9' && forall c :: c in t ==> '0' <= c <= '9'
  {
    ItoaIsDigits(n);
    ItoaLast(n);
    assert Itoa(n)[0] in Itoa(n);
  }

  lemma HeadIsFine(s: Site)
    requires Normal(s) && ValidSite(s) && Plain(s)
    ensures FinePart(Head(s), {Listen, ServerName})
  {
    var v := ListenValue(s);
    NumeralChars(s.listenPort);
    ListenIsPlain(Itoa(s.listenPort), s.ssl, s.http2);
    NamesTrimmed(s.serverName);
    FineSetting(1, Listen, v, {Listen, ServerName});
    FineSetting(1, ServerName, Join(Names(s.serverName), " "), {Listen, ServerName});
    assert Head(s) == [Setting(1, Listen, v)] + [Setting(1, ServerName, Join(Names(s.serverName), " "))];
    FineConcat([Setting(1, Listen, v)], [Setting(1, ServerName, Join(Names(s.serverName), " "))], {Listen, ServerName});
  }

  predicate ListenChar(c: char) {
    c == ' ' || 'a' <= c <= 'z' || '0' <= c <= '9'
  }

  lemma ListenTail(digits: string, tail: string)
    requires digits != "" && forall c :: c in digits ==> '0' <= c <= '9'
    requires forall i :: 0 <= i < |tail| ==> ListenChar(tail[i])
    requires tail != "" ==> tail[|tail| - 1] != ' '
    ensures PlainText(digits + tail + ";") && Trimmed(digits + tail)
  {
    assert digits[0] in digits && digits[|digits| - 1] in digits;
    assert tail != "" ==> ListenChar(tail[|tail| - 1]);
    var t := digits + tail + ";";
    assert forall i :: 0 <= i < |digits| ==> t[i] == digits[i] && digits[i] in digits;
    assert forall i :: |digits| <= i < |t| - 1 ==> t[i] == tail[i - |digits|];
    ListenChars(t);
    QuietWithoutSigns(digits + tail + ";");
  }

  lemma ListenChars(t: string)
    requires forall i :: 0 <= i < |t| ==> ListenChar(t[i]) || t[i] == ';'
    ensures '/' !in t && '~' !in t && '_' !in t && '\n' !in t && Braceless(t)
  {
  }

  lemma ListenIsPlain(digits: string, ssl: bool, http2: bool)
    requires digits != "" && forall c :: c in digits ==> '0' <= c <= '9'
    ensures var v := digits + if ssl then " ssl" + (if http2 then " http2" else "") else "";
            PlainText(v + ";") && Trimmed(v)
  {
    if !ssl {
      ListenTail(digits, "");
    } else if !http2 {
      assert " ssl" + "" == " ssl";
      ListenTail(digits, " ssl");
    } else {
      assert " ssl" + " http2" == " ssl http2";
      ListenTail(digits, " ssl http2");
    }
  }

  /** Words joined by spaces start and end in their own characters. */
  lemma {:induction false} JoinedTrimmed(words: seq<string>)
    requires words != [] && forall w :: w in words ==> IsWord(w, IsSpace)
    ensures Join(words, " ") != "" && Trimmed(Join(words, " "))
  {
    assert IsWord(words[0], IsSpace) && words[0][0] in words[0] && words[0][|words[0]| - 1] in words[0];
    if |words| > 1 {
      JoinedTrimmed(words[1..]);
    }
  }

  lemma {:induction false} FieldsAreWords(s: string, isSep: char -> bool, word: string)
    requires forall c :: c in word ==> !isSep(c)
    ensures forall w :: w in Fields(s, isSep, word) ==> IsWord(w, isSep)
  {
    if s != [] {
      if isSep(s[0]) {
        FieldsAreWords(s[1..], isSep, []);
      } else {
        FieldsAreWords(s[1..], isSep, word + [s[0]]);
      }
    }
  }

  lemma NamesTrimmed(serverName: string)
    requires Names(serverName) != []
    ensures Join(Names(serverName), " ") != "" && Trimmed(Join(Names(serverName), " "))
  {
    FieldsAreWords(TrimSpace(serverName), IsSpace, []);
    JoinedTrimmed(Names(serverName));
  }

  lemma SslIsFine(s: Site)
    requires Normal(s) && Plain(s)
    ensures FinePart(SslPart(s), SSL_WORDS)
  {
    if s.ssl {
      FineSetting(1, SslCertificate, s.certPath, SSL_WORDS);
      FineSetting(1, SslCertificateKey, s.keyPath, SSL_WORDS);
      FineSetting(1, Include, s.sslConfigPath, SSL_WORDS);
      FineSetting(1, SslDhParam, s.sslDhParamPath, SSL_WORDS);
      var a := SettingUnlessEmpty(1, SslCertificate, s.certPath);
      var b := SettingUnlessEmpty(1, SslCertificateKey, s.keyPath);
      var c, d := SettingUnlessEmpty(1, Include, s.sslConfigPath), SettingUnlessEmpty(1, SslDhParam, s.sslDhParamPath);
      FineConcat(a, b, SSL_WORDS);
      FineConcat(a + b, c, SSL_WORDS);
      FineConcat(a + b + c, d, SSL_WORDS);
    } else {
      FineEmpty(SSL_WORDS);
    }
  }

  lemma RootsAreFine(s: Site)
    requires Normal(s) && Plain(s)
    ensures FinePart(Roots(s), {Root, IndexWord})
  {
    FineSetting(1, Root, s.rootPath, {Root, IndexWord});
    FineSetting(1, IndexWord, s.indexFiles, {Root, IndexWord});
    FineOne(Blank, {Root, IndexWord});
    var a, b := SettingUnlessEmpty(1, Root, s.rootPath), SettingUnlessEmpty(1, IndexWord, s.indexFiles);
    FineConcat(a, b, {Root, IndexWord});
    FineConcat(a + b, [Blank], {Root, IndexWord});
  }

  predicate SimpleChar(c: char) {
    c != '/' && c != '~' && c != '_' && c != '{' && c != '}' && c != '#' && c != '\n'
  }

  predicate Simple(s: string) {
    forall i :: 0 <= i < |s| ==> SimpleChar(s[i])
  }

  lemma SimpleConcat(a: string, b: string)
    requires Simple(a) && Simple(b)
    ensures Simple(a + b)
  {
  }

  /** A literal line without slashes, tildes, underscores, braces, comment signs and line breaks. */
  lemma FineSimple(indent: nat, word: Word, rest: string, words: set<Word>)
    requires rest != "" && Trimmed(rest) && word in words && word != Location && Simple(rest)
    ensures FinePart([Stmt(indent, word, rest)], words)
  {
    QuietWithoutSigns(rest);
    FineLiteral(indent, word, rest, words);
  }

  lemma ContentTypeHeader()
    ensures FinePart([Stmt(1, AddHeader, CONTENT_TYPE)], {AddHeader})
  {
    FineSimple(1, AddHeader, CONTENT_TYPE, {AddHeader});
  }

  lemma FrameHeader()
    ensures FinePart([Stmt(1, AddHeader, FRAME)], {AddHeader})
  {
    FineSimple(1, AddHeader, FRAME, {AddHeader});
  }

  lemma ReferrerHeader()
    ensures FinePart([Stmt(1, AddHeader, REFERRER)], {AddHeader})
  {
    SimpleConcat("Referrer-Policy \"strict-origin-", "when-cross-origin\" always;");
    FineSimple(1, AddHeader, REFERRER, {AddHeader});
  }

  lemma PermissionsHeader()
    ensures FinePart([Stmt(1, AddHeader, PERMISSIONS)], {AddHeader})
  {
    SimpleConcat("Permissions-Policy \"camera=(),", " microphone=(),");
    SimpleConcat("Permissions-Policy \"camera=()," + " microphone=(),", " geolocation=()\" always;");
    FineSimple(1, AddHeader, PERMISSIONS, {AddHeader});
  }

  lemma FineFour(a: Line, b: Line, c: Line, d: Line, words: set<Word>)
    requires FinePart([a], words) && FinePart([b], words) && FinePart([c], words) && FinePart([d], words)
    ensures FinePart([a, b, c, d], words)
  {
    FineConcat([a], [b], words);
    FineConcat([c], [d], words);
    FineConcat([a] + [b], [c] + [d], words);
    assert [a, b, c, d] == ([a] + [b]) + ([c] + [d]);
  }

  lemma HeadersAreFine()
    ensures FinePart(Headers(), {AddHeader})
  {
    ContentTypeHeader();
    FrameHeader();
    ReferrerHeader();
    PermissionsHeader();
    FineFour(Stmt(1, AddHeader, CONTENT_TYPE), Stmt(1, AddHeader, FRAME),
             Stmt(1, AddHeader, REFERRER), Stmt(1, AddHeader, PERMISSIONS), {AddHeader});
  }

  predicate GoodLocation(r: string) {
    Tidy(r) && Opens(r) && Quiet(r)
  }

  lemma SimpleLocation(r: string)
    requires |r| > 1 && r[|r| - 1] == '{' && !IsSpace(r[0])
    requires forall i :: 0 <= i < |r| - 1 ==> r[i] != '{' && r[i] != '}' && r[i] != '#' && r[i] != '\n' && r[i] != 'o'
    ensures GoodLocation(r)
  {
    QuietWithoutO(r);
    var t := r[..|r| - 1];
    assert forall i :: 0 <= i < |t| ==> t[i] == r[i];
  }

  lemma StaticLocation()
    ensures GoodLocation(STATIC)
  {
    SimpleLocation(STATIC);
  }

  lemma PhpMyAdminLocation()
    ensures GoodLocation(PHPMYADMIN)
  {
    SimpleLocation(PHPMYADMIN);
  }

  lemma PhpMyAdminPhpLocation()
    ensures GoodLocation(PHPMYADMIN_PHP)
  {
    SimpleLocation(PHPMYADMIN_PHP);
  }

  lemma PhpLocation()
    ensures GoodLocation(PHP)
  {
    SimpleLocation(PHP);
  }

  lemma RootLocation()
    ensures GoodLocation(ROOT)
  {
    SimpleLocation(ROOT);
  }

  // ---------- Locations

  predicate FineInner(inner: seq<Line>, words: set<Word>) {
    forall i :: 0 <= i < |inner| ==> inner[i].Stmt? && inner[i].word != Location && Fine(inner[i], words)
  }

  lemma FineLocation(location: string, inner: seq<Line>, words: set<Word>)
    requires GoodLocation(location) && Location in words && FineInner(inner, words)
    ensures FinePart(LocationOf(location, inner), words) && FinePart(LocationOf(location, inner) + [Blank], words)
  {
    var open := [Stmt(1, Location, location)];
    FlatNests(inner, 2);
    assert Nest(open, 1) == Nest(open[1..], 2) == Some(2);
    NestConcat(open, inner, 1);
    NestConcat(open + inner, [Close(1)], 1);
    assert Nest([Close(1)], 2) == Nest([Close(1)][1..], 1);
    FineOne(Blank, words);
    FineConcat(LocationOf(location, inner), [Blank], words);
  }

  lemma InnerConcat(a: seq<Line>, b: seq<Line>, words: set<Word>)
    requires FineInner(a, words) && FineInner(b, words)
    ensures FineInner(a + b, words)
  {
  }

  lemma InnerSetting(indent: nat, word: Word, value: string, words: set<Word>)
    requires Trimmed(value) && PlainText(value + ";") && word in words && word != Location
    ensures FineInner([Setting(indent, word, value)], words)
            && FineInner(SettingUnlessEmpty(indent, word, value), words)
  {
    assert Trimmed(value + ";");
  }

  lemma InnerLiteral(indent: nat, word: Word, rest: string, words: set<Word>)
    requires rest != "" && Trimmed(rest) && PlainText(rest) && word in words && word != Location
    ensures FineInner([Stmt(indent, word, rest)], words)
  {
  }

  /** A literal without braces, comment signs, line breaks and the letter o, or without spaces. */
  lemma PlainLiteral(rest: string)
    requires forall i :: 0 <= i < |rest| ==> rest[i] != '{' && rest[i] != '}' && rest[i] != '#' && rest[i] != '\n'
    requires 'o' !in rest || ' ' !in rest
    ensures PlainText(rest)
  {
    if 'o' !in rest {
      QuietWithoutO(rest);
    } else {
      QuietWithoutSpace(rest);
    }
  }

  lemma OffIsFine(word: Word, words: set<Word>)
    requires word in words && word != Location
    ensures FineInner([Stmt(2, word, "off;")], words)
  {
    PlainLiteral("off;");
  }

  lemma TryFileIsFine(words: set<Word>)
    requires TryFiles in words
    ensures FineInner([Stmt(2, TryFiles, TRY_FILE)], words)
  {
    PlainLiteral(TRY_FILE);
  }

  lemma TryFilesIsFine(words: set<Word>)
    requires TryFiles in words
    ensures FineInner([Stmt(2, TryFiles, TRY_FILES)], words)
  {
    PlainLiteral(TRY_FILES);
  }

  lemma CacheControlIsFine(s: Site)
    requires Normal(s) && Plain(s) && s.staticAliasPath != ""
    ensures FineInner(CacheControl(s), STATIC_WORDS)
  {
    var v := "Cache-Control " + Quote(s.staticCacheControl);
    assert v[0] == 'C' && v[|v| - 1] == '"';
    InnerSetting(2, AddHeader, v, STATIC_WORDS);
  }

  lemma StaticIsFine(s: Site)
    requires Normal(s) && Plain(s)
    ensures FinePart(StaticPart(s), STATIC_WORDS)
  {
    if s.staticAliasPath == "" {
      FineEmpty(STATIC_WORDS);
    } else {
      InnerSetting(2, Alias, s.staticAliasPath, STATIC_WORDS);
      TryFileIsFine(STATIC_WORDS);
      OffIsFine(AccessLog, STATIC_WORDS);
      InnerSetting(2, Expires, s.staticExpires, STATIC_WORDS);
      CacheControlIsFine(s);
      var a, b := [Setting(2, Alias, s.staticAliasPath)], [Stmt(2, TryFiles, TRY_FILE)];
      var c := if s.accessLogOffStatic then [Stmt(2, AccessLog, "off;")] else [];
      var d := SettingUnlessEmpty(2, Expires, s.staticExpires);
      InnerConcat(a, b, STATIC_WORDS);
      InnerConcat(a + b, c, STATIC_WORDS);
      InnerConcat(a + b + c, d, STATIC_WORDS);
      InnerConcat(a + b + c + d, CacheControl(s), STATIC_WORDS);
      StaticLocation();
      FineLocation(STATIC, StaticInner(s), STATIC_WORDS);
    }
  }

  lemma IncludeIsFine(words: set<Word>)
    requires Include in words
    ensures FineInner([Stmt(2, Include, "fastcgi_params;")], words)
  {
    PlainLiteral("fastcgi_params;");
  }

  /** No sign that matters, no l and no x. */
  predicate WithoutLX(s: string) {
    forall i :: 0 <= i < |s| ==> s[i] != '{' && s[i] != '}' && s[i] != '#' && s[i] != '\n' && s[i] != 'l' && s[i] != 'x'
  }

  lemma WithoutLXIsQuiet(s: string)
    requires 'l' !in s && 'x' !in s
    ensures Quiet(s)
  {
    NeedleChars();
    QuietWithout(s, 'l', 'l', 'l', 'x', 'x', 'l');
  }

  lemma WithoutLXIsPlain(s: string, t: string)
    requires WithoutLX(s) && WithoutLX(t)
    ensures PlainText(s + t)
  {
    assert WithoutLX(s + t);
    WithoutLXIsQuiet(s + t);
  }

  /** No sign that matters and no o. */
  predicate WithoutO(s: string) {
    forall i :: 0 <= i < |s| ==> s[i] != '{' && s[i] != '}' && s[i] != '#' && s[i] != '\n' && s[i] != 'o'
  }

  lemma WithoutOIsPlain(s: string, t: string)
    requires WithoutO(s) && WithoutO(t)
    ensures PlainText(s + t)
  {
    assert WithoutO(s + t);
    QuietWithoutO(s + t);
  }

  /** No sign that matters, no slash, tilde, x or g. */
  predicate WithoutXG(s: string) {
    forall i :: 0 <= i < |s| ==>
      && s[i] != '{' && s[i] != '}' && s[i] != '#' && s[i] != '\n' && s[i] != '/'
      && s[i] != '~' && s[i] != 'x' && s[i] != 'g'
  }

  lemma WithoutXGIsQuiet(s: string)
    requires '/' !in s && '~' !in s && 'x' !in s && 'g' !in s
    ensures Quiet(s)
  {
    NeedleChars();
    QuietWithout(s, '/', '/', '~', 'x', 'x', 'g');
  }

  lemma WithoutXGIsPlain(s: string, t: string)
    requires WithoutXG(s) && WithoutXG(t)
    ensures PlainText(s + t)
  {
    assert WithoutXG(s + t);
    WithoutXGIsQuiet(s + t);
  }

  /** No sign that matters, no slash, tilde, s or b. */
  predicate WithoutSB(s: string) {
    forall i :: 0 <= i < |s| ==>
      && s[i] != '{' && s[i] != '}' && s[i] != '#' && s[i] != '\n' && s[i] != '/'
      && s[i] != '~' && s[i] != 's' && s[i] != 'b'
  }

  lemma WithoutSBIsQuiet(s: string)
    requires '/' !in s && '~' !in s && 's' !in s && 'b' !in s
    ensures Quiet(s)
  {
    NeedleChars();
    QuietWithout(s, '/', '/', '~', 's', 'b', 's');
  }

  lemma WithoutSBIsPlain(s: string, t: string)
    requires WithoutSB(s) && WithoutSB(t)
    ensures PlainText(s + t)
  {
    assert WithoutSB(s + t);
    WithoutSBIsQuiet(s + t);
  }

  lemma SimpleIsPlain(s: string)
    requires Simple(s)
    ensures PlainText(s)
  {
    QuietWithoutSigns(s);
  }

  lemma ScriptIsPlain()
    ensures PlainText(SCRIPT)
  {
    WithoutLXIsPlain("SCRIPT_FILENAME $document_root", "$fastcgi_script_name;");
  }

  lemma ScriptIsFine(words: set<Word>)
    requires FastcgiParam in words
    ensures FineInner([Stmt(2, FastcgiParam, SCRIPT)], words)
  {
    ScriptIsPlain();
    InnerLiteral(2, FastcgiParam, SCRIPT, words);
  }

  lemma FastCgiIsFine(socket: string, words: set<Word>)
    requires Trimmed(socket) && PlainText("unix:" + socket + ";") && {Include, FastcgiParam, FastcgiPass} <= words
    ensures FineInner(FastCgiInner(socket), words)
  {
    var v := "unix:" + socket;
    assert v[0] == 'u' && Trimmed(v);
    IncludeIsFine(words);
    ScriptIsFine(words);
    InnerSetting(2, FastcgiPass, v, words);
    InnerConcat([Stmt(2, Include, "fastcgi_params;")], [Stmt(2, FastcgiParam, SCRIPT)], words);
    InnerConcat([Stmt(2, Include, "fastcgi_params;")] + [Stmt(2, FastcgiParam, SCRIPT)], [Setting(2, FastcgiPass, v)],
                words);
  }

  lemma PhpIsFine(s: Site)
    requires Normal(s) && Plain(s)
    ensures FinePart(PhpPart(s), PHP_WORDS)
  {
    if s.phpEnabled {
      FastCgiIsFine(s.phpSocket, PHP_WORDS);
      PhpLocation();
      FineLocation(PHP, FastCgiInner(s.phpSocket), PHP_WORDS);
    } else {
      FineEmpty(PHP_WORDS);
    }
  }

  lemma IndexPhpIsFine()
    ensures FineInner([Stmt(2, IndexWord, "index.php;")], PHPMYADMIN_WORDS)
  {
    PlainLiteral("index.php;");
  }

  lemma TryPhpMyAdminIsPlain()
    ensures PlainText(TRY_PHPMYADMIN)
  {
    WithoutOIsPlain("$uri $uri/ /phpmyadmin/", "index.php?$query_string;");
  }

  lemma TryPhpMyAdminIsFine()
    ensures FineInner([Stmt(2, TryFiles, TRY_PHPMYADMIN)], PHPMYADMIN_WORDS)
  {
    TryPhpMyAdminIsPlain();
    InnerLiteral(2, TryFiles, TRY_PHPMYADMIN, PHPMYADMIN_WORDS);
  }

  lemma PhpMyAdminIsFine(s: Site)
    requires Normal(s) && Plain(s)
    ensures FinePart(PhpMyAdminPart(s), PHPMYADMIN_WORDS)
  {
    if s.phpMyAdminEnabled {
      IndexPhpIsFine();
      TryPhpMyAdminIsFine();
      InnerConcat([Stmt(2, IndexWord, "index.php;")], [Stmt(2, TryFiles, TRY_PHPMYADMIN)], PHPMYADMIN_WORDS);
      PhpMyAdminLocation();
      FineLocation(PHPMYADMIN, PhpMyAdminIndex(), PHPMYADMIN_WORDS);
      FastCgiIsFine(s.phpMyAdminSocket, PHPMYADMIN_WORDS);
      PhpMyAdminPhpLocation();
      FineLocation(PHPMYADMIN_PHP, FastCgiInner(s.phpMyAdminSocket), PHPMYADMIN_WORDS);
      FineConcat(LocationOf(PHPMYADMIN, PhpMyAdminIndex()) + [Blank],
                 LocationOf(PHPMYADMIN_PHP, FastCgiInner(s.phpMyAdminSocket)) + [Blank], PHPMYADMIN_WORDS);
    } else {
      FineEmpty(PHPMYADMIN_WORDS);
    }
  }

  lemma VersionIsFine()
    ensures FineInner([Stmt(2, ProxyHttpVersion, "1.1;")], MAIN_WORDS)
  {
    PlainLiteral("1.1;");
  }

  lemma HostIsPlain()
    ensures PlainText(HOST)
  {
    SimpleIsPlain(HOST);
  }

  lemma HostIsFine()
    ensures FineInner([Stmt(2, ProxySetHeader, HOST)], MAIN_WORDS)
  {
    HostIsPlain();
    InnerLiteral(2, ProxySetHeader, HOST, MAIN_WORDS);
  }

  lemma RealIpIsPlain()
    ensures PlainText(REAL_IP)
  {
    WithoutXGIsPlain("X-Real-IP ", "$remote_addr;");
  }

  lemma RealIpIsFine()
    ensures FineInner([Stmt(2, ProxySetHeader, REAL_IP)], MAIN_WORDS)
  {
    RealIpIsPlain();
    InnerLiteral(2, ProxySetHeader, REAL_IP, MAIN_WORDS);
  }

  lemma ForwardedForIsPlain()
    ensures PlainText(FORWARDED_FOR)
  {
    WithoutSBIsPlain("X-Forwarded-For ", "$proxy_add_x_forwarded_for;");
  }

  lemma ForwardedForIsFine()
    ensures FineInner([Stmt(2, ProxySetHeader, FORWARDED_FOR)], MAIN_WORDS)
  {
    ForwardedForIsPlain();
    InnerLiteral(2, ProxySetHeader, FORWARDED_FOR, MAIN_WORDS);
  }

  lemma ForwardedProtoIsPlain()
    ensures PlainText(FORWARDED_PROTO)
  {
    SimpleIsPlain(FORWARDED_PROTO);
  }

  lemma ForwardedProtoIsFine()
    ensures FineInner([Stmt(2, ProxySetHeader, FORWARDED_PROTO)], MAIN_WORDS)
  {
    ForwardedProtoIsPlain();
    InnerLiteral(2, ProxySetHeader, FORWARDED_PROTO, MAIN_WORDS);
  }

  lemma HeadersToProxyAreFine()
    ensures FineInner(ProxyHeaders(), MAIN_WORDS)
  {
    HostIsFine();
    RealIpIsFine();
    ForwardedForIsFine();
    ForwardedProtoIsFine();
    InnerFour(Stmt(2, ProxySetHeader, HOST), Stmt(2, ProxySetHeader, REAL_IP),
              Stmt(2, ProxySetHeader, FORWARDED_FOR), Stmt(2, ProxySetHeader, FORWARDED_PROTO), MAIN_WORDS);
  }

  lemma InnerFour(a: Line, b: Line, c: Line, d: Line, words: set<Word>)
    requires FineInner([a], words) && FineInner([b], words) && FineInner([c], words) && FineInner([d], words)
    ensures FineInner([a, b, c, d], words)
  {
    InnerConcat([a], [b], words);
    InnerConcat([c], [d], words);
    InnerConcat([a] + [b], [c] + [d], words);
    assert [a, b, c, d] == ([a] + [b]) + ([c] + [d]);
  }

  lemma MainIsFine(s: Site)
    requires Normal(s) && Plain(s)
    ensures FinePart(MainPart(s), MAIN_WORDS)
  {
    RootLocation();
    if s.mode == "proxy" {
      InnerSetting(2, ProxyPass, s.proxyPassUrl, MAIN_WORDS);
      VersionIsFine();
      HeadersToProxyAreFine();
      OffIsFine(ProxyBuffering, MAIN_WORDS);
      var a, b := [Setting(2, ProxyPass, s.proxyPassUrl)], [Stmt(2, ProxyHttpVersion, "1.1;")];
      var c := if s.proxyBufferingOff then [Stmt(2, ProxyBuffering, "off;")] else [];
      InnerConcat(a, b, MAIN_WORDS);
      InnerConcat(a + b, ProxyHeaders(), MAIN_WORDS);
      InnerConcat(a + b + ProxyHeaders(), c, MAIN_WORDS);
      FineLocation(ROOT, ProxyInner(s), MAIN_WORDS);
    } else {
      TryFilesIsFine(MAIN_WORDS);
      FineLocation(ROOT, [Stmt(2, TryFiles, TRY_FILES)], MAIN_WORDS);
    }
  }
}
