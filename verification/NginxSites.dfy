/** The system server's nginx sites: normalised, printed as `server` blocks, and read back. */
module NginxSites {
  import opened Text
  import opened NginxScanner
  import opened NginxLines
  import opened NginxLayout
  import opened NginxQuoting

  datatype Site = Site(
    id: string, serverName: string, mode: string, listenPort: int, ssl: bool, http2: bool,
    certPath: string, keyPath: string, sslConfigPath: string, sslDhParamPath: string,
    rootPath: string, indexFiles: string, proxyPassUrl: string, proxyBufferingOff: bool,
    staticAliasPath: string, accessLogOffStatic: bool, staticExpires: string, staticCacheControl: string,
    phpEnabled: bool, phpSocket: string, phpMyAdminEnabled: bool, phpMyAdminSocket: string)

  // ---------- Normalisation

  function OrElse(s: string, fallback: string): string {
    if s == "" then fallback else s
  }

  function DefaultId(idx: nat): string {
    "system-site-" + Itoa(idx + 1)
  }

  function NormalSite(s: Site, idx: nat): Site {
    Site(OrElse(TrimSpace(s.id), DefaultId(idx)), TrimSpace(s.serverName),
         OrElse(ToLower(TrimSpace(s.mode)), "proxy"), if s.listenPort <= 0 then 443 else s.listenPort, s.ssl, s.http2,
         TrimSpace(s.certPath), TrimSpace(s.keyPath), TrimSpace(s.sslConfigPath), TrimSpace(s.sslDhParamPath),
         TrimSpace(s.rootPath), OrElse(TrimSpace(s.indexFiles), "index.php index.html"),
         TrimSpace(s.proxyPassUrl), s.proxyBufferingOff,
         TrimSpace(s.staticAliasPath), s.accessLogOffStatic,
         OrElse(TrimSpace(s.staticExpires), "1h"), OrElse(TrimSpace(s.staticCacheControl), "public"),
         s.phpEnabled, TrimSpace(s.phpSocket), s.phpMyAdminEnabled, TrimSpace(s.phpMyAdminSocket))
  }

  type Normalizer = (Site, nat) -> Site

  /** Sites from position `idx` on; identifiers seen before and nameless sites are passed over. */
  function KeptFrom(sites: seq<Site>, normal: Normalizer, idx: nat, seen: set<string>): seq<Site>
    requires idx <= |sites|
    decreases |sites| - idx
  {
    if idx == |sites| then []
    else
      var s := normal(sites[idx], idx);
      if s.id in seen then KeptFrom(sites, normal, idx + 1, seen)
      else (if s.serverName == "" then [] else [s]) + KeptFrom(sites, normal, idx + 1, seen + {s.id})
  }

  function NormalSites(sites: seq<Site>): seq<Site> {
    KeptFrom(sites, NormalSite, 0, {})
  }

  /** The loop of `normalizeSystemNginxSites`. */
  method KeepSites(sites: seq<Site>, normal: Normalizer) returns (normalized: seq<Site>)
    ensures normalized == KeptFrom(sites, normal, 0, {})
  {
    normalized := [];
    var seen := {};
    for idx := 0 to |sites|
      invariant normalized + KeptFrom(sites, normal, idx, seen) == KeptFrom(sites, normal, 0, {})
    {
      var site := normal(sites[idx], idx);
      ghost var rest := KeptFrom(sites, normal, idx + 1, seen + {site.id});
      assert [] + rest == rest;
      if site.id in seen {
        continue;
      }
      seen := seen + {site.id};
      if site.serverName == "" {
        continue;
      }
      assert normalized + ([site] + rest) == (normalized + [site]) + rest;
      normalized := normalized + [site];
    }
  }

  /** `normalizeSystemNginxSites` */
  method NormalizeSystemNginxSites(sites: seq<Site>) returns (normalized: seq<Site>)
    ensures normalized == NormalSites(sites)
  {
    normalized := KeepSites(sites, NormalSite);
  }

  function NormalConfig(raw: string): string {
    var t := TrimSpace(raw);
    if t == "" then "" else t + "\n"
  }

  // ---------- Printing

  function Names(serverName: string): seq<string> {
    Fields(TrimSpace(serverName), IsSpace, [])
  }

  predicate NameChar(c: char) {
    'a' <= c <= 'z' || 'A' <= c <= 'Z' || '0' <= c <= '9' || c == '.' || c == '-' || c == '_' || c == '*'
  }

  predicate ValidNames(serverName: string) {
    Names(serverName) != [] && forall n :: n in Names(serverName) ==> forall c :: c in n ==> NameChar(c)
  }

  predicate ValidSite(s: Site) {
    ValidNames(s.serverName) && 1 <= s.listenPort <= 65535 && s.mode in {"proxy", "static"}
  }

  function Setting(indent: nat, word: Word, value: string): Line {
    Stmt(indent, word, value + ";")
  }

  function SettingUnlessEmpty(indent: nat, word: Word, value: string): seq<Line> {
    if value == "" then [] else [Setting(indent, word, value)]
  }

  function ListenValue(s: Site): string
    requires s.listenPort >= 0
  {
    Itoa(s.listenPort) + if s.ssl then " ssl" + (if s.http2 then " http2" else "") else ""
  }

  function Head(s: Site): seq<Line>
    requires s.listenPort >= 0
  {
    [Setting(1, Listen, ListenValue(s)), Setting(1, ServerName, Join(Names(s.serverName), " "))]
  }

  function SslPart(s: Site): seq<Line> {
    if !s.ssl then []
    else SettingUnlessEmpty(1, SslCertificate, s.certPath) + SettingUnlessEmpty(1, SslCertificateKey, s.keyPath)
         + SettingUnlessEmpty(1, Include, s.sslConfigPath) + SettingUnlessEmpty(1, SslDhParam, s.sslDhParamPath)
  }

  const CONTENT_TYPE := "X-Content-Type-Options \"nosniff\" always;"
  const FRAME := "X-Frame-Options \"SAMEORIGIN\" always;"
  const REFERRER := "Referrer-Policy \"strict-origin-" + "when-cross-origin\" always;"
  const PERMISSIONS := "Permissions-Policy \"camera=()," + " microphone=()," + " geolocation=()\" always;"

  /** `renderBaselineSecurityHeaders` */
  function Headers(): seq<Line> {
    [Stmt(1, AddHeader, CONTENT_TYPE), Stmt(1, AddHeader, FRAME),
     Stmt(1, AddHeader, REFERRER), Stmt(1, AddHeader, PERMISSIONS)]
  }

  function Roots(s: Site): seq<Line> {
    SettingUnlessEmpty(1, Root, s.rootPath) + SettingUnlessEmpty(1, IndexWord, s.indexFiles) + [Blank]
  }

  const STATIC := "/static/ {"
  const PHPMYADMIN := "/phpmyadmin/ {"
  const PHPMYADMIN_PHP := "~ ^/phpmyadmin/(.+\\.php)$ {"
  const PHP := "~ \\.php$ {"
  const ROOT := "/ {"

  /** A location: its line, what it holds, and its closing brace. */
  function LocationOf(location: string, inner: seq<Line>): seq<Line> {
    [Stmt(1, Location, location)] + inner + [Close(1)]
  }

  const TRY_FILE := "$uri =404;"
  const TRY_FILES := "$uri $uri/ =404;"
  const TRY_PHPMYADMIN := "$uri $uri/ /phpmyadmin/" + "index.php?$query_string;"
  const SCRIPT := "SCRIPT_FILENAME $document_root" + "$fastcgi_script_name;"

  function CacheControl(s: Site): seq<Line> {
    if s.staticCacheControl == "" then [] else [Setting(2, AddHeader, "Cache-Control " + Quote(s.staticCacheControl))]
  }

  function StaticInner(s: Site): seq<Line> {
    [Setting(2, Alias, s.staticAliasPath)] + [Stmt(2, TryFiles, TRY_FILE)]
    + (if s.accessLogOffStatic then [Stmt(2, AccessLog, "off;")] else [])
    + SettingUnlessEmpty(2, Expires, s.staticExpires) + CacheControl(s)
  }

  function StaticPart(s: Site): seq<Line> {
    if s.staticAliasPath == "" then [] else LocationOf(STATIC, StaticInner(s)) + [Blank]
  }

  function FastCgiInner(socket: string): seq<Line> {
    [Stmt(2, Include, "fastcgi_params;")] + [Stmt(2, FastcgiParam, SCRIPT)]
      + [Setting(2, FastcgiPass, "unix:" + socket)]
  }

  function PhpMyAdminIndex(): seq<Line> {
    [Stmt(2, IndexWord, "index.php;")] + [Stmt(2, TryFiles, TRY_PHPMYADMIN)]
  }

  function PhpMyAdminPart(s: Site): seq<Line> {
    if !s.phpMyAdminEnabled then []
    else LocationOf(PHPMYADMIN, PhpMyAdminIndex()) + [Blank]
         + (LocationOf(PHPMYADMIN_PHP, FastCgiInner(s.phpMyAdminSocket)) + [Blank])
  }

  function PhpPart(s: Site): seq<Line> {
    if !s.phpEnabled then [] else LocationOf(PHP, FastCgiInner(s.phpSocket)) + [Blank]
  }

  const HOST := "Host $host;"
  const REAL_IP := "X-Real-IP " + "$remote_addr;"
  const FORWARDED_FOR := "X-Forwarded-For " + "$proxy_add_x_forwarded_for;"
  const FORWARDED_PROTO := "X-Forwarded-Proto $scheme;"

  function ProxyHeaders(): seq<Line> {
    [Stmt(2, ProxySetHeader, HOST), Stmt(2, ProxySetHeader, REAL_IP),
     Stmt(2, ProxySetHeader, FORWARDED_FOR), Stmt(2, ProxySetHeader, FORWARDED_PROTO)]
  }

  function ProxyInner(s: Site): seq<Line> {
    [Setting(2, ProxyPass, s.proxyPassUrl)] + [Stmt(2, ProxyHttpVersion, "1.1;")] + ProxyHeaders()
    + (if s.proxyBufferingOff then [Stmt(2, ProxyBuffering, "off;")] else [])
  }

  function MainPart(s: Site): seq<Line> {
    LocationOf(ROOT, if s.mode == "proxy" then ProxyInner(s) else [Stmt(2, TryFiles, TRY_FILES)])
  }

  function Flat(parts: seq<seq<Line>>): seq<Line> {
    if parts == [] then [] else parts[0] + Flat(parts[1..])
  }

  function Parts(s: Site): (parts: seq<seq<Line>>)
    requires s.listenPort >= 0
    ensures |parts| == 8
  {
    [Head(s), SslPart(s), Headers(), Roots(s), StaticPart(s), PhpMyAdminPart(s), PhpPart(s), MainPart(s)]
  }

  function SiteLines(s: Site): seq<Line>
    requires s.listenPort >= 0
  {
    Block(Flat(Parts(s)))
  }

  /** The block of a site, without its last line break. */
  function BlockText(s: Site): string
    requires s.listenPort >= 0
  {
    Join(Texts(SiteLines(s)), "\n")
  }

  /** The builder's loop over the lines of one site, and the validity checks before it. */
  method RenderSystemNginxSite(s: Site) returns (text: Result<string>)
    ensures text == if ValidSite(s) then Ok(BlockText(s) + "\n") else Err("invalid site")
  {
    if !ValidNames(s.serverName) || s.listenPort < 1 || s.listenPort > 65535 || s.mode !in {"proxy", "static"} {
      return Err("invalid site");
    }
    var b := WriteLines(SiteLines(s));
    WholeIsJoined(SiteLines(s));
    return Ok(b);
  }

  method WriteLines(lines: seq<Line>) returns (b: string)
    ensures b == Whole(lines)
  {
    b := "";
    for i := 0 to |lines|
      invariant b == Whole(lines[..i])
    {
      assert lines[..i + 1] == lines[..i] + [lines[i]];
      WholeConcat(lines[..i], [lines[i]]);
      OneLine(lines[i]);
      b := b + (TextOf(lines[i]) + "\n");
    }
    assert lines[..|lines|] == lines;
  }

  predicate AllValid(sites: seq<Site>) {
    forall i :: 0 <= i < |sites| ==> ValidSite(sites[i])
  }

  function BlockTexts(sites: seq<Site>): (r: seq<string>)
    requires AllValid(sites)
    ensures |r| == |sites| && forall i :: 0 <= i < |sites| ==> r[i] == BlockText(sites[i])
  {
    seq(|sites|, i requires 0 <= i < |sites| => BlockText(sites[i]))
  }

  function WithTail(text: string, raw: string): string {
    if raw == "" then text else if text == "" then raw else text + "\n" + raw
  }

  /** `renderSystemNginxConfig` with the DDoS policy off: the blocks, then the raw tail. */
  function Rendered(sites: seq<Site>, raw: string): Result<string> {
    var normal := NormalSites(sites);
    if !AllValid(normal) then Err("invalid site")
    else
      var text := Listing(BlockTexts(normal));
      Ok(NormalConfig(WithTail(text, raw)))
  }

  lemma {:induction false} ListingSnoc(blocks: seq<string>, b: string)
    ensures Listing(blocks + [b]) == Listing(blocks) + (if blocks == [] then "" else "\n") + b + "\n"
  {
    if blocks != [] {
      assert (blocks + [b])[1..] == blocks[1..] + [b];
      ListingSnoc(blocks[1..], b);
    } else {
      assert [] + [b] == [b];
    }
  }

  lemma BlockTextsSnoc(sites: seq<Site>, i: nat)
    requires i < |sites| && AllValid(sites[..i]) && ValidSite(sites[i])
    ensures AllValid(sites[..i + 1]) && BlockTexts(sites[..i + 1]) == BlockTexts(sites[..i]) + [BlockText(sites[i])]
  {
  }

  /** The loop over the sites: the builder, or nothing if a site is invalid. */
  method RenderSites(normal: seq<Site>) returns (text: Option<string>)
    ensures text == if AllValid(normal) then Some(Listing(BlockTexts(normal))) else None
  {
    var b := "";
    for idx := 0 to |normal|
      invariant AllValid(normal[..idx]) && b == Listing(BlockTexts(normal[..idx]))
    {
      var block := RenderSystemNginxSite(normal[idx]);
      if block.Err? {
        return None;
      }
      BlockTextsSnoc(normal, idx);
      ListingSnoc(BlockTexts(normal[..idx]), BlockText(normal[idx]));
      if idx > 0 {
        b := b + "\n";
      }
      b := b + block.value;
    }
    assert normal[..|normal|] == normal;
    return Some(b);
  }

  /** `renderSystemNginxConfig` */
  method RenderSystemNginxConfig(sites: seq<Site>, raw: string) returns (text: Result<string>)
    ensures text == Rendered(sites, raw)
  {
    var normal := NormalizeSystemNginxSites(sites);
    var rendered := RenderSites(normal);
    if rendered.None? {
      return Err("invalid site");
    }
    var b := AppendTail(rendered.value, raw);
    return Ok(NormalConfig(b));
  }

  method AppendTail(text: string, raw: string) returns (b: string)
    ensures b == WithTail(text, raw)
  {
    b := text;
    if raw != "" {
      if |b| > 0 {
        b := b + "\n";
      }
      b := b + raw;
    }
  }

  // ---------- Reading

  function DigitsValue(s: string): Option<nat> {
    if s == [] then None
    else
      var n := |s| - 1;
      if !('0' <= s[n] <= '9') then None
      else if n == 0 then Some((s[0] - '0') as nat)
      else
        var high := DigitsValue(s[..n]);
        if high.None? then None else Some(10 * high.value + (s[n] - '0') as nat)
  }

  const MAX_INT: int := 0x7FFF_FFFF_FFFF_FFFF

  /** `strconv.Atoi` */
  function Atoi(s: string): Option<int> {
    if s == "" then None
    else
      var signed := s[0] == '-' || s[0] == '+';
      var digits := DigitsValue(if signed then s[1..] else s);
      if digits.None? then None
      else
        var v: int := if s[0] == '-' then 0 - digits.value else digits.value;
        if -MAX_INT - 1 <= v <= MAX_INT then Some(v) else None
  }

  function FirstNumber(fields: seq<string>): int {
    if fields == [] then 0 else if Atoi(fields[0]).Some? then Atoi(fields[0]).value else FirstNumber(fields[1..])
  }

  /** `firstPort` */
  method FirstPort(raw: string) returns (port: int)
    ensures port == FirstNumber(Fields(raw, IsSpace, []))
  {
    var fields := Fields(raw, IsSpace, []);
    for i := 0 to |fields|
      invariant FirstNumber(fields[i..]) == FirstNumber(fields)
    {
      var port := Atoi(fields[i]);
      if port.Some? {
        return port.value;
      }
    }
    return 0;
  }

  const SSL_CONFIG := "/etc/letsencrypt/options-ssl-nginx.conf"
  const SSL_DHPARAM := "/etc/letsencrypt/ssl-dhparams.pem"
  const PHP_SOCKET := "/run/php/php8.1-fpm.sock"
  const PHPMYADMIN_SOCKET := "/run/php/phpmyadmin.sock"

  /** What an imported site is before its block is read. */
  function BlankSite(idx: nat): Site {
    Site(DefaultId(idx), "", "static", 443, true, false, "", "", SSL_CONFIG, SSL_DHPARAM, "", "index.php index.html",
         "", false, "", false, "1h", "public", false, PHP_SOCKET, false, PHPMYADMIN_SOCKET)
  }

  function ReadListen(s: Site, lines: seq<string>): Site {
    var listen := Directive(lines, "listen");
    if listen == "" then s
    else
      var port := FirstNumber(Fields(listen, IsSpace, []));
      s.(listenPort := if port > 0 then port else s.listenPort,
         ssl := Contains(listen, "ssl"), http2 := Contains(listen, "http2"))
  }

  function Read(lines: seq<string>, name: string): string {
    TrimSpace(Directive(lines, name))
  }

  function ReadNames(s: Site, lines: seq<string>): Site {
    s.(serverName := Read(lines, "server_name"), certPath := Read(lines, "ssl_certificate"),
       keyPath := Read(lines, "ssl_certificate_key"))
  }

  function ReadIncludes(s: Site, lines: seq<string>): Site {
    s.(sslConfigPath := OrElse(Read(lines, "include"), s.sslConfigPath),
       sslDhParamPath := OrElse(Read(lines, "ssl_dhparam"), s.sslDhParamPath))
  }

  function ReadRoots(s: Site, lines: seq<string>): Site {
    s.(rootPath := OrElse(Read(lines, "root"), s.rootPath), indexFiles := OrElse(Read(lines, "index"), s.indexFiles))
  }

  function ReadHead(s: Site, lines: seq<string>): Site {
    ReadRoots(ReadIncludes(ReadNames(ReadListen(s, lines), lines), lines), lines)
  }

  function ReadProxy(s: Site, block: string, lines: seq<string>): Site {
    if Contains(block, "location / {") && Contains(block, "proxy_pass ") then
      s.(mode := "proxy", proxyPassUrl := Read(lines, "proxy_pass"),
         proxyBufferingOff := Contains(block, "proxy_buffering off;"))
    else s
  }

  function ReadCaching(s: Site, lines: seq<string>): Site {
    s.(staticExpires := OrElse(Read(lines, "expires"), s.staticExpires),
       staticCacheControl := OrElse(TrimQuotes(Directive(lines, "add_header Cache-Control")), s.staticCacheControl))
  }

  function ReadStatic(s: Site, block: string, lines: seq<string>): Site {
    if Contains(block, "location /static/") then
      ReadCaching(s.(staticAliasPath := Read(lines, "alias"),
                     accessLogOffStatic := Contains(block, "access_log off;")), lines)
    else s
  }

  function ReadPhp(s: Site, block: string, lines: seq<string>): Site {
    var a := if Contains(block, "location /phpmyadmin/")
             then s.(phpMyAdminEnabled := true, phpMyAdminSocket := Socket(lines, "^/phpmyadmin/")) else s;
    if Contains(block, "location ~ \\.php$") then a.(phpEnabled := true, phpSocket := Socket(lines, "\\.php$")) else a
  }

  function ReadSite(block: string, idx: nat): Site {
    var lines := Split(block, '\n');
    ReadPhp(ReadStatic(ReadProxy(ReadHead(BlankSite(idx), lines), block, lines), block, lines), block, lines)
  }

  /** `parseImportedSystemNginxSite` */
  function ParsedSite(block: string, idx: nat): Result<Site> {
    var s := ReadSite(block, idx);
    if TrimSpace(s.serverName) == "" then Err("missing server_name") else Ok(s)
  }

  method ExtractTrimmed(lines: seq<string>, name: string) returns (value: string)
    ensures value == Read(lines, name)
  {
    value := ExtractDirective(lines, name);
    value := TrimSpace(value);
  }

  method ParseListen(start: Site, lines: seq<string>) returns (site: Site)
    ensures site == ReadListen(start, lines)
  {
    site := start;
    var listen := ExtractDirective(lines, "listen");
    if listen != "" {
      var port := FirstPort(listen);
      if port > 0 {
        site := site.(listenPort := port);
      }
      site := site.(ssl := Contains(listen, "ssl"));
      site := site.(http2 := Contains(listen, "http2"));
    }
  }

  /** `if v := ...; v != "" { field = v }` */
  method ExtractOr(lines: seq<string>, name: string, fallback: string) returns (value: string)
    ensures value == OrElse(Read(lines, name), fallback)
  {
    value := ExtractTrimmed(lines, name);
    if value == "" {
      value := fallback;
    }
  }

  method ParseNames(start: Site, lines: seq<string>) returns (site: Site)
    ensures site == ReadNames(start, lines)
  {
    var serverName := ExtractTrimmed(lines, "server_name");
    var cert := ExtractTrimmed(lines, "ssl_certificate");
    var key := ExtractTrimmed(lines, "ssl_certificate_key");
    site := start.(serverName := serverName, certPath := cert, keyPath := key);
  }

  method ParseIncludes(start: Site, lines: seq<string>) returns (site: Site)
    ensures site == ReadIncludes(start, lines)
  {
    var config := ExtractOr(lines, "include", start.sslConfigPath);
    var dhParam := ExtractOr(lines, "ssl_dhparam", start.sslDhParamPath);
    site := start.(sslConfigPath := config, sslDhParamPath := dhParam);
  }

  method ParseRoots(start: Site, lines: seq<string>) returns (site: Site)
    ensures site == ReadRoots(start, lines)
  {
    var root := ExtractOr(lines, "root", start.rootPath);
    var indexFiles := ExtractOr(lines, "index", start.indexFiles);
    site := start.(rootPath := root, indexFiles := indexFiles);
  }

  method ParseHead(start: Site, lines: seq<string>) returns (site: Site)
    ensures site == ReadHead(start, lines)
  {
    site := ParseListen(start, lines);
    site := ParseNames(site, lines);
    site := ParseIncludes(site, lines);
    site := ParseRoots(site, lines);
  }

  method ParseProxy(start: Site, block: string, lines: seq<string>) returns (site: Site)
    ensures site == ReadProxy(start, block, lines)
  {
    site := start;
    if Contains(block, "location / {") && Contains(block, "proxy_pass ") {
      var url := ExtractTrimmed(lines, "proxy_pass");
      site := site.(mode := "proxy", proxyPassUrl := url, proxyBufferingOff := Contains(block, "proxy_buffering off;"));
    }
  }

  method ParseStatic(start: Site, block: string, lines: seq<string>) returns (site: Site)
    ensures site == ReadStatic(start, block, lines)
  {
    site := start;
    if Contains(block, "location /static/") {
      var path := ExtractTrimmed(lines, "alias");
      site := site.(staticAliasPath := path, accessLogOffStatic := Contains(block, "access_log off;"));
      var expires := ExtractTrimmed(lines, "expires");
      if expires != "" {
        site := site.(staticExpires := expires);
      }
      var cacheControl := ExtractDirective(lines, "add_header Cache-Control");
      cacheControl := TrimQuotes(cacheControl);
      if cacheControl != "" {
        site := site.(staticCacheControl := cacheControl);
      }
    }
  }

  method ParsePhp(start: Site, block: string, lines: seq<string>) returns (site: Site)
    ensures site == ReadPhp(start, block, lines)
  {
    site := start;
    if Contains(block, "location /phpmyadmin/") {
      var socket := ExtractFastCgiSocket(lines, "^/phpmyadmin/");
      site := site.(phpMyAdminEnabled := true, phpMyAdminSocket := socket);
    }
    if Contains(block, "location ~ \\.php$") {
      var socket := ExtractFastCgiSocket(lines, "\\.php$");
      site := site.(phpEnabled := true, phpSocket := socket);
    }
  }

  /** `parseImportedSystemNginxSite` */
  method ParseImportedSystemNginxSite(block: string, idx: nat) returns (r: Result<Site>)
    ensures r == ParsedSite(block, idx)
  {
    var lines := Split(block, '\n');
    var site := ParseHead(BlankSite(idx), lines);
    site := ParseProxy(site, block, lines);
    site := ParseStatic(site, block, lines);
    site := ParsePhp(site, block, lines);
    if TrimSpace(site.serverName) == "" {
      return Err("missing server_name");
    }
    return Ok(site);
  }

  /** The sites of the blocks from `idx` on, or the first error. */
  function ParsedSites(blocks: seq<string>, parse: (string, nat) -> Result<Site>, idx: nat): Result<seq<Site>>
    decreases |blocks|
  {
    if blocks == [] then Ok([])
    else match parse(blocks[0], idx)
      case Err(e) => Err(e)
      case Ok(s) =>
        match ParsedSites(blocks[1..], parse, idx + 1)
        case Err(e) => Err(e)
        case Ok(rest) => Ok([s] + rest)
  }

  /** The loop over the blocks. */
  method ParseSites(blocks: seq<string>, parse: (string, nat) -> Result<Site>) returns (r: Result<seq<Site>>)
    ensures r == ParsedSites(blocks, parse, 0)
  {
    var sites := [];
    ghost var all := ParsedSites(blocks, parse, 0);
    assert all.Ok? ==> [] + all.value == all.value;
    assert blocks[0..] == blocks;
    for idx := 0 to |blocks|
      invariant all
                == match ParsedSites(blocks[idx..], parse, idx) case Err(e) => Err(e) case Ok(rest) => Ok(sites + rest)
    {
      assert blocks[idx..][1..] == blocks[idx + 1..];
      match parse(blocks[idx], idx)
      case Err(e) => return Err(e);
      case Ok(s) =>
        ghost var rest := ParsedSites(blocks[idx + 1..], parse, idx + 1);
        assert rest.Ok? ==> sites + ([s] + rest.value) == (sites + [s]) + rest.value;
        sites := sites + [s];
    }
    assert sites + [] == sites;
    return Ok(sites);
  }

  function Imported(raw: string): Result<seq<Site>> {
    var blocks := Blocks(raw, "", 0);
    if blocks == [] then Err("no nginx server blocks found")
    else match ParsedSites(blocks, ParsedSite, 0)
      case Err(e) => Err(e)
      case Ok(sites) => Ok(NormalSites(sites))
  }

  /** `ImportSystemNginxConfig`; the remainder of every block is empty. */
  method ImportSystemNginxConfig(raw: string) returns (r: Result<seq<Site>>)
    ensures r == Imported(raw)
  {
    var blocks := SplitServerBlocks(raw);
    if |blocks| == 0 {
      return Err("no nginx server blocks found");
    }
    var sites := ParseSites(blocks, ParsedSite);
    match sites
    case Err(e) => return Err(e);
    case Ok(found) =>
      var normal := NormalizeSystemNginxSites(found);
      return Ok(normal);
  }
}
