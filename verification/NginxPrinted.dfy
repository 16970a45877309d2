/** The text of a printed site, line by line as the builder writes it. */
module NginxPrinted {
  import opened Text
  import opened NginxLines
  import opened NginxLayout
  import opened NginxQuoting
  import opened NginxSites

  lemma StmtText(n: nat, w: Word, front: string, rest: string)
    requires front == Spaces(n) + Spell(w) + " "
    ensures Texts([Stmt(n, w, rest)]) == [front + rest]
  {
  }

  lemma CloseText(n: nat, text: string)
    requires text == Spaces(n) + "}"
    ensures Texts([Close(n)]) == [text]
  {
  }

  /** A setting with its value, and no line for an empty value. */
  lemma SettingText(n: nat, w: Word, front: string, value: string)
    requires front == Spaces(n) + Spell(w) + " "
    ensures Texts([Setting(n, w, value)]) == [front + value + ";"]
    ensures Texts(SettingUnlessEmpty(n, w, value)) == if value == "" then [] else [front + value + ";"]
  {
    StmtText(n, w, front, value + ";");
    assert front + (value + ";") == front + value + ";";
  }

  lemma OuterFronts()
    ensures Spaces(1) + Spell(Listen) + " " == " listen "
    ensures Spaces(1) + Spell(ServerName) + " " == " server_name "
    ensures Spaces(1) + Spell(AddHeader) + " " == " add_header "
    ensures Spaces(1) + Spell(Root) + " " == " root "
    ensures Spaces(1) + Spell(IndexWord) + " " == " index "
    ensures Spaces(1) + Spell(Location) + " " == " location "
  {
    assert Spaces(1) == " ";
  }

  lemma SslFronts()
    ensures Spaces(1) + Spell(SslCertificate) + " " == " ssl_certificate "
    ensures Spaces(1) + Spell(SslCertificateKey) + " " == " ssl_certificate_key "
    ensures Spaces(1) + Spell(Include) + " " == " include "
    ensures Spaces(1) + Spell(SslDhParam) + " " == " ssl_dhparam "
  {
    assert Spaces(1) == " ";
  }

  lemma StaticFronts()
    ensures Spaces(2) + Spell(Alias) + " " == "  alias "
    ensures Spaces(2) + Spell(AccessLog) + " " == "  access_log "
    ensures Spaces(2) + Spell(Expires) + " " == "  expires "
    ensures Spaces(2) + Spell(AddHeader) + " " == "  add_header "
  {
    assert Spaces(2) == "  ";
  }

  lemma PhpFronts()
    ensures Spaces(2) + Spell(Include) + " " == "  include "
    ensures Spaces(2) + Spell(FastcgiParam) + " " == "  fastcgi_param "
    ensures Spaces(2) + Spell(FastcgiPass) + " " == "  fastcgi_pass "
    ensures Spaces(2) + Spell(IndexWord) + " " == "  index "
  {
    assert Spaces(2) == "  ";
  }

  lemma ProxyFronts()
    ensures Spaces(2) + Spell(ProxyPass) + " " == "  proxy_pass "
    ensures Spaces(2) + Spell(ProxyHttpVersion) + " " == "  proxy_http_version "
    ensures Spaces(2) + Spell(ProxyBuffering) + " " == "  proxy_buffering "
  {
    assert Spaces(2) == "  ";
  }

  lemma HeaderFront()
    ensures Spaces(2) + Spell(ProxySetHeader) + " " == "  proxy_set_header "
  {
    assert Spaces(2) == "  ";
  }

  lemma FilesFront()
    ensures Spaces(2) + Spell(TryFiles) + " " == "  try_files "
  {
    assert Spaces(2) == "  ";
  }

  lemma CloseFront()
    ensures Spaces(0) + "}" == "}" && Spaces(1) + "}" == " }"
  {
    assert Spaces(0) == "" && Spaces(1) == " ";
  }

  // ---------- The parts

  lemma HeadIsPrinted(s: Site)
    requires s.listenPort >= 0
    ensures var ssl := if !s.ssl then "" else if s.http2 then " ssl http2" else " ssl";
            Texts(Head(s)) == [" listen " + (Itoa(s.listenPort) + ssl) + ";",
                               " server_name " + Join(Names(s.serverName), " ") + ";"]
  {
    OuterFronts();
    assert " ssl" + " http2" == " ssl http2" && " ssl" + "" == " ssl";
    SettingText(1, Listen, " listen ", ListenValue(s));
    SettingText(1, ServerName, " server_name ", Join(Names(s.serverName), " "));
    TextsConcat([Setting(1, Listen, ListenValue(s))], [Setting(1, ServerName, Join(Names(s.serverName), " "))]);
  }

  lemma SslIsPrinted(s: Site)
    ensures Texts(SslPart(s))
            == if !s.ssl then []
               else (if s.certPath == "" then [] else [" ssl_certificate " + s.certPath + ";"])
                    + (if s.keyPath == "" then [] else [" ssl_certificate_key " + s.keyPath + ";"])
                    + (if s.sslConfigPath == "" then [] else [" include " + s.sslConfigPath + ";"])
                    + (if s.sslDhParamPath == "" then [] else [" ssl_dhparam " + s.sslDhParamPath + ";"])
  {
    if s.ssl {
      SslFronts();
      SettingText(1, SslCertificate, " ssl_certificate ", s.certPath);
      SettingText(1, SslCertificateKey, " ssl_certificate_key ", s.keyPath);
      SettingText(1, Include, " include ", s.sslConfigPath);
      SettingText(1, SslDhParam, " ssl_dhparam ", s.sslDhParamPath);
      FourTexts(SettingUnlessEmpty(1, SslCertificate, s.certPath), SettingUnlessEmpty(1, SslCertificateKey, s.keyPath),
                SettingUnlessEmpty(1, Include, s.sslConfigPath), SettingUnlessEmpty(1, SslDhParam, s.sslDhParamPath));
    }
  }

  lemma FourTexts(a: seq<Line>, b: seq<Line>, c: seq<Line>, d: seq<Line>)
    ensures Texts(a + b + c + d) == Texts(a) + Texts(b) + Texts(c) + Texts(d)
  {
    TextsConcat(a + b + c, d);
    TextsConcat(a + b, c);
    TextsConcat(a, b);
  }

  lemma FourLines(a: Line, b: Line, c: Line, d: Line)
    ensures Texts([a, b, c, d]) == [TextOf(a), TextOf(b), TextOf(c), TextOf(d)]
  {
    var ls := [a, b, c, d];
    TextsAt(ls, 0);
    TextsAt(ls, 1);
    TextsAt(ls, 2);
    TextsAt(ls, 3);
  }

  lemma HeadersArePrinted()
    ensures Texts(Headers())
            == [" add_header " + "X-Content-Type-Options \"nosniff\" always;",
                " add_header " + "X-Frame-Options \"SAMEORIGIN\" always;",
                " add_header " + ("Referrer-Policy \"strict-origin-" + "when-cross-origin\" always;"),
                " add_header " + ("Permissions-Policy \"camera=()," + " microphone=()," + " geolocation=()\" always;")]
  {
    OuterFronts();
    FourLines(Stmt(1, AddHeader, CONTENT_TYPE), Stmt(1, AddHeader, FRAME),
              Stmt(1, AddHeader, REFERRER), Stmt(1, AddHeader, PERMISSIONS));
  }

  lemma RootsArePrinted(s: Site)
    ensures Texts(Roots(s)) == (if s.rootPath == "" then [] else [" root " + s.rootPath + ";"])
                               + (if s.indexFiles == "" then [] else [" index " + s.indexFiles + ";"]) + [""]
  {
    OuterFronts();
    SettingText(1, Root, " root ", s.rootPath);
    SettingText(1, IndexWord, " index ", s.indexFiles);
    TextsConcat(SettingUnlessEmpty(1, Root, s.rootPath) + SettingUnlessEmpty(1, IndexWord, s.indexFiles), [Blank]);
    TextsConcat(SettingUnlessEmpty(1, Root, s.rootPath), SettingUnlessEmpty(1, IndexWord, s.indexFiles));
  }

  lemma LocationIsPrinted(location: string, inner: seq<Line>)
    ensures Texts(LocationOf(location, inner)) == [" location " + location] + Texts(inner) + [" }"]
  {
    OuterFronts();
    CloseFront();
    StmtText(1, Location, " location ", location);
    CloseText(1, " }");
    TextsConcat([Stmt(1, Location, location)] + inner, [Close(1)]);
    TextsConcat([Stmt(1, Location, location)], inner);
  }

  lemma StaticInnerIsPrinted(s: Site)
    ensures Texts(StaticInner(s))
            == ["  alias " + s.staticAliasPath + ";"] + ["  try_files " + "$uri =404;"]
               + (if s.accessLogOffStatic then ["  access_log " + "off;"] else [])
               + (if s.staticExpires == "" then [] else ["  expires " + s.staticExpires + ";"])
               + Texts(CacheControl(s))
  {
    var log := if s.accessLogOffStatic then [Stmt(2, AccessLog, "off;")] else [];
    StaticFronts();
    FilesFront();
    SettingText(2, Alias, "  alias ", s.staticAliasPath);
    StmtText(2, TryFiles, "  try_files ", TRY_FILE);
    StmtText(2, AccessLog, "  access_log ", "off;");
    SettingText(2, Expires, "  expires ", s.staticExpires);
    FourTexts([Setting(2, Alias, s.staticAliasPath)], [Stmt(2, TryFiles, TRY_FILE)], log,
              SettingUnlessEmpty(2, Expires, s.staticExpires));
    TextsConcat([Setting(2, Alias, s.staticAliasPath)] + [Stmt(2, TryFiles, TRY_FILE)] + log
             + SettingUnlessEmpty(2, Expires, s.staticExpires), CacheControl(s));
  }

  lemma CacheControlIsPrinted(s: Site)
    ensures Texts(CacheControl(s))
            == if s.staticCacheControl == "" then []
               else ["  add_header " + ("Cache-Control " + Quote(s.staticCacheControl)) + ";"]
  {
    StaticFronts();
    SettingText(2, AddHeader, "  add_header ", "Cache-Control " + Quote(s.staticCacheControl));
  }

  lemma StaticIsPrinted(s: Site)
    ensures s.staticAliasPath == "" ==> Texts(StaticPart(s)) == []
    ensures s.staticAliasPath != "" ==>
              Texts(StaticPart(s)) == [" location " + "/static/ {"] + Texts(StaticInner(s)) + [" }"] + [""]
  {
    LocationIsPrinted(STATIC, StaticInner(s));
    TextsConcat(LocationOf(STATIC, StaticInner(s)), [Blank]);
  }

  lemma FastCgiIsPrinted(socket: string)
    ensures Texts(FastCgiInner(socket))
            == ["  include " + "fastcgi_params;"]
               + ["  fastcgi_param " + ("SCRIPT_FILENAME $document_root" + "$fastcgi_script_name;")]
               + ["  fastcgi_pass " + ("unix:" + socket) + ";"]
  {
    PhpFronts();
    StmtText(2, Include, "  include ", "fastcgi_params;");
    StmtText(2, FastcgiParam, "  fastcgi_param ", SCRIPT);
    SettingText(2, FastcgiPass, "  fastcgi_pass ", "unix:" + socket);
    TextsConcat([Stmt(2, Include, "fastcgi_params;")] + [Stmt(2, FastcgiParam, SCRIPT)],
             [Setting(2, FastcgiPass, "unix:" + socket)]);
    TextsConcat([Stmt(2, Include, "fastcgi_params;")], [Stmt(2, FastcgiParam, SCRIPT)]);
  }

  lemma IndexIsPrinted()
    ensures Texts(PhpMyAdminIndex())
            == ["  index " + "index.php;"]
               + ["  try_files " + ("$uri $uri/ /phpmyadmin/" + "index.php?$query_string;")]
  {
    PhpFronts();
    FilesFront();
    StmtText(2, IndexWord, "  index ", "index.php;");
    StmtText(2, TryFiles, "  try_files ", TRY_PHPMYADMIN);
    TextsConcat([Stmt(2, IndexWord, "index.php;")], [Stmt(2, TryFiles, TRY_PHPMYADMIN)]);
  }

  /** phpMyAdmin has two locations, and only the second passes to its socket. */
  lemma PhpMyAdminIsPrinted(s: Site)
    ensures !s.phpMyAdminEnabled ==> Texts(PhpMyAdminPart(s)) == []
    ensures s.phpMyAdminEnabled ==>
              Texts(PhpMyAdminPart(s))
              == [" location " + "/phpmyadmin/ {"] + Texts(PhpMyAdminIndex()) + [" }"] + [""]
                 + ([" location " + "~ ^/phpmyadmin/(.+\\.php)$ {"]
                    + Texts(FastCgiInner(s.phpMyAdminSocket)) + [" }"] + [""])
  {
    var inner := FastCgiInner(s.phpMyAdminSocket);
    LocationIsPrinted(PHPMYADMIN, PhpMyAdminIndex());
    LocationIsPrinted(PHPMYADMIN_PHP, inner);
    TextsConcat(LocationOf(PHPMYADMIN, PhpMyAdminIndex()) + [Blank], LocationOf(PHPMYADMIN_PHP, inner) + [Blank]);
    TextsConcat(LocationOf(PHPMYADMIN, PhpMyAdminIndex()), [Blank]);
    TextsConcat(LocationOf(PHPMYADMIN_PHP, inner), [Blank]);
  }

  lemma PhpIsPrinted(s: Site)
    ensures !s.phpEnabled ==> Texts(PhpPart(s)) == []
    ensures s.phpEnabled ==>
              Texts(PhpPart(s))
              == [" location " + "~ \\.php$ {"] + Texts(FastCgiInner(s.phpSocket)) + [" }"] + [""]
  {
    LocationIsPrinted(PHP, FastCgiInner(s.phpSocket));
    TextsConcat(LocationOf(PHP, FastCgiInner(s.phpSocket)), [Blank]);
  }

  lemma ProxyHeadersArePrinted()
    ensures Texts(ProxyHeaders())
            == ["  proxy_set_header " + "Host $host;",
                "  proxy_set_header " + ("X-Real-IP " + "$remote_addr;"),
                "  proxy_set_header " + ("X-Forwarded-For " + "$proxy_add_x_forwarded_for;"),
                "  proxy_set_header " + "X-Forwarded-Proto $scheme;"]
  {
    HeaderFront();
    FourLines(Stmt(2, ProxySetHeader, HOST), Stmt(2, ProxySetHeader, REAL_IP),
              Stmt(2, ProxySetHeader, FORWARDED_FOR), Stmt(2, ProxySetHeader, FORWARDED_PROTO));
  }

  lemma ProxyInnerIsPrinted(s: Site)
    ensures Texts(ProxyInner(s))
            == ["  proxy_pass " + s.proxyPassUrl + ";"] + ["  proxy_http_version " + "1.1;"] + Texts(ProxyHeaders())
               + (if s.proxyBufferingOff then ["  proxy_buffering " + "off;"] else [])
  {
    ProxyFronts();
    SettingText(2, ProxyPass, "  proxy_pass ", s.proxyPassUrl);
    StmtText(2, ProxyHttpVersion, "  proxy_http_version ", "1.1;");
    StmtText(2, ProxyBuffering, "  proxy_buffering ", "off;");
    FourTexts([Setting(2, ProxyPass, s.proxyPassUrl)], [Stmt(2, ProxyHttpVersion, "1.1;")], ProxyHeaders(),
              if s.proxyBufferingOff then [Stmt(2, ProxyBuffering, "off;")] else []);
  }

  /** A proxy site passes everything on, any other serves files. */
  lemma MainIsPrinted(s: Site)
    ensures s.mode == "proxy" ==>
              Texts(MainPart(s)) == [" location " + "/ {"] + Texts(ProxyInner(s)) + [" }"]
    ensures s.mode != "proxy" ==>
              Texts(MainPart(s)) == [" location " + "/ {"] + ["  try_files " + "$uri $uri/ =404;"] + [" }"]
  {
    FilesFront();
    StmtText(2, TryFiles, "  try_files ", TRY_FILES);
    LocationIsPrinted(ROOT, if s.mode == "proxy" then ProxyInner(s) else [Stmt(2, TryFiles, TRY_FILES)]);
  }

  // ---------- The whole

  lemma FlatStep(parts: seq<seq<Line>>, i: nat)
    requires i < |parts|
    ensures Texts(Flat(parts[i..])) == Texts(parts[i]) + Texts(Flat(parts[i + 1..]))
  {
    assert parts[i..][1..] == parts[i + 1..];
    TextsConcat(parts[i], Flat(parts[i + 1..]));
  }

  lemma FlatFour(parts: seq<seq<Line>>, i: nat)
    requires i + 4 <= |parts|
    ensures Texts(Flat(parts[i..]))
            == Texts(parts[i]) + (Texts(parts[i + 1]) + (Texts(parts[i + 2]) + (Texts(parts[i + 3])
               + Texts(Flat(parts[i + 4..])))))
  {
    FlatStep(parts, i);
    FlatStep(parts, i + 1);
    FlatStep(parts, i + 2);
    FlatStep(parts, i + 3);
  }

  lemma BlockIsPrinted(inner: seq<Line>)
    ensures Texts(Block(inner)) == ["server {"] + Texts(inner) + ["}"]
  {
    FrameTexts();
    TextsConcat([Stmt(0, Server, "{")] + inner, [Close(0)]);
    TextsConcat([Stmt(0, Server, "{")], inner);
    TextsAt([Stmt(0, Server, "{")], 0);
    TextsAt([Close(0)], 0);
  }

  lemma NothingIsPrinted(texts: seq<string>)
    ensures texts + Texts(Flat([])) == texts
  {
  }

  lemma EightTexts(parts: seq<seq<Line>>)
    requires |parts| == 8
    ensures Texts(Flat(parts))
            == Texts(parts[0]) + (Texts(parts[1]) + (Texts(parts[2]) + (Texts(parts[3])
               + (Texts(parts[4]) + (Texts(parts[5]) + (Texts(parts[6]) + Texts(parts[7])))))))
  {
    FlatFour(parts, 0);
    FlatFour(parts, 4);
    assert parts[0..] == parts && parts[8..] == [];
    NothingIsPrinted(Texts(parts[7]));
  }

  /** The parts of a site stand in this order between the braces of its block. */
  lemma SiteIsPrinted(s: Site)
    requires s.listenPort >= 0
    ensures Texts(SiteLines(s))
            == ["server {"]
               + (Texts(Head(s)) + (Texts(SslPart(s)) + (Texts(Headers()) + (Texts(Roots(s))
               + (Texts(StaticPart(s)) + (Texts(PhpMyAdminPart(s)) + (Texts(PhpPart(s)) + Texts(MainPart(s)))))))))
               + ["}"]
  {
    BlockIsPrinted(Flat(Parts(s)));
    EightTexts(Parts(s));
  }
}
