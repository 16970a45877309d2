/** Which texts the importer finds in a printed site, and which sockets. */
module NginxSearching {
  import opened Text
  import opened NginxScanner
  import opened NginxLines
  import opened NginxLayout
  import opened NginxQuoting
  import opened NginxSites
  import opened NginxParts
  import opened NginxReading

  // ---------- Texts

  lemma {:induction false} SomeRest(ls: seq<Line>, w: Word, tail: string)
    ensures FirstRest(ls, w, tail).Some? <==> exists l :: l in ls && l.Stmt? && l.word == w && HasPrefix(l.rest, tail)
  {
    if ls != [] {
      SomeRest(ls[1..], w, tail);
      assert ls == [ls[0]] + ls[1..];
    }
  }

  /** The six texts that decide what is imported. */
  predicate Decides(w: Word, tail: string) {
    Spell(w) + " " + tail in {N_STATIC, N_PHPMYADMIN, N_PHP, N_PROXY, N_BUFFERING, N_LOG}
  }

  /** Such a text occurs in the block exactly when a statement prints it. */
  lemma TextOccurs(parts: seq<seq<Line>>, words: seq<set<Word>>, w: Word, tail: string)
    requires FineParts(parts, words) && Singular(w) && '\n' !in tail && Decides(w, tail)
    ensures Contains(Join(Texts(Block(Flat(parts))), "\n"), Spell(w) + " " + tail)
            <==> FirstRest(Flat(parts), w, tail).Some?
  {
    var inner := Flat(parts);
    FlatIsFine(parts, words);
    ContainsLines(Block(inner), w, tail);
    SomeRest(inner, w, tail);
    BraceIsQuiet();
    QuietLines(inner, w, tail, Spell(w) + " " + tail);
  }

  lemma BraceIsQuiet()
    ensures Quiet("{")
  {
    QuietWithoutO("{");
  }

  lemma QuietLines(inner: seq<Line>, w: Word, tail: string, needle: string)
    requires w != Server && needle == Spell(w) + " " + tail && Decides(w, tail) && Quiet("{")
    requires forall l :: l in inner && l.Stmt? ==> Quiet(l.rest)
    ensures (exists l :: l in Block(inner) && LineHas(l, w, tail))
            <==> exists l :: l in inner && l.Stmt? && l.word == w && HasPrefix(l.rest, tail)
  {
    forall l | l in Block(inner)
      ensures LineHas(l, w, tail) <==> l in inner && l.Stmt? && l.word == w && HasPrefix(l.rest, tail)
    {
      assert l.Stmt? ==> Quiet(l.rest);
    }
    if l :| l in inner && l.Stmt? && l.word == w && HasPrefix(l.rest, tail) {
      assert l in Block(inner) && LineHas(l, w, tail);
    }
  }

  /** Only one part holds a match. */
  lemma OnlyMatch(parts: seq<seq<Line>>, k: nat, w: Word, tail: string)
    requires k < |parts| && forall j :: 0 <= j < |parts| && j != k ==> FirstRest(parts[j], w, tail) == None
    ensures FirstRest(Flat(parts), w, tail) == FirstRest(parts[k], w, tail)
  {
    FirstMatch(parts, k, w, tail);
    FirstRestConcat(parts[k], Flat(parts[k..][1..]), w, tail);
    FirstMatch(parts[k..][1..], |parts| - k - 1, w, tail);
    assert parts[k..][1..][|parts| - k - 1..] == [];
  }

  predicate NoLocations(inner: seq<Line>) {
    forall i :: 0 <= i < |inner| ==> inner[i].Stmt? && inner[i].word != Location
  }

  lemma LocationStart(location: string, inner: seq<Line>, tail: string)
    requires NoLocations(inner)
    ensures FirstRest(LocationOf(location, inner), Location, tail).Some? <==> HasPrefix(location, tail)
    ensures FirstRest(LocationOf(location, inner) + [Blank], Location, tail).Some? <==> HasPrefix(location, tail)
  {
    FirstRestConcat(LocationOf(location, inner), [Blank], Location, tail);
    FirstRestConcat([Stmt(1, Location, location)] + inner, [Close(1)], Location, tail);
    FirstRestConcat([Stmt(1, Location, location)], inner, Location, tail);
    LackingHasNone(inner, Location, tail);
    LackingHasNone([Close(1)], Location, tail);
    LackingHasNone([Blank], Location, tail);
    assert [Stmt(1, Location, location)][1..] == [];
  }

  lemma NoLocationsConcat(a: seq<Line>, b: seq<Line>)
    requires NoLocations(a) && NoLocations(b)
    ensures NoLocations(a + b)
  {
  }

  lemma StaticHasNoLocations(s: Site)
    ensures NoLocations(StaticInner(s))
  {
    var a, b := [Setting(2, Alias, s.staticAliasPath)], [Stmt(2, TryFiles, TRY_FILE)];
    var c := if s.accessLogOffStatic then [Stmt(2, AccessLog, "off;")] else [];
    var d := SettingUnlessEmpty(2, Expires, s.staticExpires);
    NoLocationsConcat(a, b);
    NoLocationsConcat(a + b, c);
    NoLocationsConcat(a + b + c, d);
    NoLocationsConcat(a + b + c + d, CacheControl(s));
  }

  lemma FastCgiHasNoLocations(socket: string)
    ensures NoLocations(FastCgiInner(socket))
  {
  }

  lemma ProxyHasNoLocations(s: Site)
    ensures NoLocations(ProxyInner(s))
  {
    var a, b := [Setting(2, ProxyPass, s.proxyPassUrl)], [Stmt(2, ProxyHttpVersion, "1.1;")];
    var c := if s.proxyBufferingOff then [Stmt(2, ProxyBuffering, "off;")] else [];
    NoLocationsConcat(a, b);
    NoLocationsConcat(a + b, ProxyHeaders());
    NoLocationsConcat(a + b + ProxyHeaders(), c);
  }

  lemma StaticStart(s: Site, tail: string)
    ensures FirstRest(StaticPart(s), Location, tail).Some? <==> s.staticAliasPath != "" && HasPrefix(STATIC, tail)
  {
    if s.staticAliasPath != "" {
      StaticHasNoLocations(s);
      LocationStart(STATIC, StaticInner(s), tail);
    }
  }

  lemma PhpStart(s: Site, tail: string)
    ensures FirstRest(PhpPart(s), Location, tail).Some? <==> s.phpEnabled && HasPrefix(PHP, tail)
  {
    if s.phpEnabled {
      FastCgiHasNoLocations(s.phpSocket);
      LocationStart(PHP, FastCgiInner(s.phpSocket), tail);
    }
  }

  lemma PhpMyAdminStart(s: Site, tail: string)
    ensures FirstRest(PhpMyAdminPart(s), Location, tail).Some?
            <==> s.phpMyAdminEnabled && (HasPrefix(PHPMYADMIN, tail) || HasPrefix(PHPMYADMIN_PHP, tail))
  {
    if s.phpMyAdminEnabled {
      FirstRestConcat(LocationOf(PHPMYADMIN, PhpMyAdminIndex()) + [Blank],
                      LocationOf(PHPMYADMIN_PHP, FastCgiInner(s.phpMyAdminSocket)) + [Blank], Location, tail);
      FastCgiHasNoLocations(s.phpMyAdminSocket);
      LocationStart(PHPMYADMIN, PhpMyAdminIndex(), tail);
      LocationStart(PHPMYADMIN_PHP, FastCgiInner(s.phpMyAdminSocket), tail);
    }
  }

  lemma MainStart(s: Site, tail: string)
    ensures FirstRest(MainPart(s), Location, tail).Some? <==> HasPrefix(ROOT, tail)
  {
    if s.mode == "proxy" {
      ProxyHasNoLocations(s);
      LocationStart(ROOT, ProxyInner(s), tail);
    } else {
      LocationStart(ROOT, [Stmt(2, TryFiles, TRY_FILES)], tail);
    }
  }

  lemma Differs(s: string, t: string, k: nat)
    requires k < |t| && (k < |s| ==> s[k] != t[k])
    ensures !HasPrefix(s, t)
  {
  }

  lemma Starts()
    ensures HasPrefix(STATIC, "/static/") && !HasPrefix(PHPMYADMIN, "/static/")
            && !HasPrefix(PHPMYADMIN_PHP, "/static/")
    ensures !HasPrefix(PHP, "/static/") && !HasPrefix(ROOT, "/static/")
  {
    assert STATIC[..8] == "/static/";
    Differs(PHPMYADMIN, "/static/", 1);
    Differs(PHPMYADMIN_PHP, "/static/", 0);
    Differs(PHP, "/static/", 0);
    Differs(ROOT, "/static/", 1);
  }

  lemma PhpMyAdminStarts()
    ensures HasPrefix(PHPMYADMIN, "/phpmyadmin/") && !HasPrefix(STATIC, "/phpmyadmin/")
    ensures !HasPrefix(PHP, "/phpmyadmin/") && !HasPrefix(ROOT, "/phpmyadmin/")
  {
    assert PHPMYADMIN[..12] == "/phpmyadmin/";
    Differs(STATIC, "/phpmyadmin/", 1);
    Differs(PHP, "/phpmyadmin/", 0);
    Differs(ROOT, "/phpmyadmin/", 1);
  }

  lemma PhpStarts()
    ensures HasPrefix(PHP, "~ \\.php$") && !HasPrefix(STATIC, "~ \\.php$") && !HasPrefix(PHPMYADMIN, "~ \\.php$")
    ensures !HasPrefix(PHPMYADMIN_PHP, "~ \\.php$") && !HasPrefix(ROOT, "~ \\.php$")
  {
    assert PHP[..8] == "~ \\.php$";
    Differs(STATIC, "~ \\.php$", 0);
    Differs(PHPMYADMIN, "~ \\.php$", 0);
    Differs(PHPMYADMIN_PHP, "~ \\.php$", 2);
    Differs(ROOT, "~ \\.php$", 0);
  }

  /** Where the parts of a site are. */
  ghost predicate PartsOf(s: Site, parts: seq<seq<Line>>, words: seq<set<Word>>) {
    && FineParts(parts, words) && |parts| == 8
    && parts[4] == StaticPart(s) && parts[5] == PhpMyAdminPart(s) && parts[6] == PhpPart(s) && parts[7] == MainPart(s)
    && forall j :: 0 <= j < 4 ==> Location !in words[j]
  }

  lemma NoLocation(parts: seq<seq<Line>>, words: seq<set<Word>>, tail: string)
    requires FineParts(parts, words) && |parts| == 8 && forall j :: 0 <= j < 4 ==> Location !in words[j]
    ensures forall j :: 0 <= j < 4 ==> FirstRest(parts[j], Location, tail) == None
  {
    forall j | 0 <= j < 4 ensures FirstRest(parts[j], Location, tail) == None {
      WordlessHasNone(parts[j], words[j], Location, tail);
    }
  }

  lemma OnlyStaticStarts(s: Site)
    ensures FirstRest(PhpMyAdminPart(s), Location, "/static/") == None
    ensures FirstRest(PhpPart(s), Location, "/static/") == None
    ensures FirstRest(MainPart(s), Location, "/static/") == None
    ensures FirstRest(StaticPart(s), Location, "/static/").Some? <==> s.staticAliasPath != ""
  {
    Starts();
    StaticStart(s, "/static/");
    PhpMyAdminStart(s, "/static/");
    PhpStart(s, "/static/");
    MainStart(s, "/static/");
  }

  lemma StaticFound(s: Site, parts: seq<seq<Line>>, words: seq<set<Word>>)
    requires PartsOf(s, parts, words)
    ensures FirstRest(Flat(parts), Location, "/static/").Some? <==> s.staticAliasPath != ""
  {
    NoLocation(parts, words, "/static/");
    OnlyStaticStarts(s);
    OnlyMatch(parts, 4, Location, "/static/");
  }

  lemma OnlyPhpMyAdminStarts(s: Site)
    ensures FirstRest(StaticPart(s), Location, "/phpmyadmin/") == None
    ensures FirstRest(PhpPart(s), Location, "/phpmyadmin/") == None
    ensures FirstRest(MainPart(s), Location, "/phpmyadmin/") == None
    ensures FirstRest(PhpMyAdminPart(s), Location, "/phpmyadmin/").Some? <==> s.phpMyAdminEnabled
  {
    PhpMyAdminStarts();
    StaticStart(s, "/phpmyadmin/");
    PhpMyAdminStart(s, "/phpmyadmin/");
    PhpStart(s, "/phpmyadmin/");
    MainStart(s, "/phpmyadmin/");
  }

  lemma PhpMyAdminFound(s: Site, parts: seq<seq<Line>>, words: seq<set<Word>>)
    requires PartsOf(s, parts, words)
    ensures FirstRest(Flat(parts), Location, "/phpmyadmin/").Some? <==> s.phpMyAdminEnabled
  {
    NoLocation(parts, words, "/phpmyadmin/");
    OnlyPhpMyAdminStarts(s);
    OnlyMatch(parts, 5, Location, "/phpmyadmin/");
  }

  lemma OnlyPhpStarts(s: Site)
    ensures FirstRest(StaticPart(s), Location, "~ \\.php$") == None
    ensures FirstRest(PhpMyAdminPart(s), Location, "~ \\.php$") == None
    ensures FirstRest(MainPart(s), Location, "~ \\.php$") == None
    ensures FirstRest(PhpPart(s), Location, "~ \\.php$").Some? <==> s.phpEnabled
  {
    PhpStarts();
    StaticStart(s, "~ \\.php$");
    PhpMyAdminStart(s, "~ \\.php$");
    PhpStart(s, "~ \\.php$");
    MainStart(s, "~ \\.php$");
  }

  lemma PhpFound(s: Site, parts: seq<seq<Line>>, words: seq<set<Word>>)
    requires PartsOf(s, parts, words)
    ensures FirstRest(Flat(parts), Location, "~ \\.php$").Some? <==> s.phpEnabled
  {
    NoLocation(parts, words, "~ \\.php$");
    OnlyPhpStarts(s);
    OnlyMatch(parts, 6, Location, "~ \\.php$");
  }

  lemma OffRest(w: Word)
    ensures FirstRest([Stmt(2, w, "off;")], w, "off;").Some?
  {
    assert "off;"[..4] == "off;";
  }

  lemma LogFound(s: Site, parts: seq<seq<Line>>, words: seq<set<Word>>)
    requires FineParts(parts, words) && OnlyIn(words, AccessLog, 4) && parts[4] == StaticPart(s)
    ensures FirstRest(Flat(parts), AccessLog, "off;").Some? <==> s.staticAliasPath != "" && s.accessLogOffStatic
  {
    OnlyPart(parts, words, 4, AccessLog, "off;");
    if s.staticAliasPath != "" {
      LocationRest(STATIC, StaticInner(s), AccessLog, "off;");
      StaticRest(s, AccessLog, "off;");
      LackingHasNone([Setting(2, Alias, s.staticAliasPath)], AccessLog, "off;");
      OtherWord(2, TryFiles, TRY_FILE, AccessLog, "off;");
      OffRest(AccessLog);
      LackingHasNone(SettingUnlessEmpty(2, Expires, s.staticExpires), AccessLog, "off;");
      LackingHasNone(CacheControl(s), AccessLog, "off;");
    }
  }

  lemma LastOfFour(a: seq<Line>, b: seq<Line>, c: seq<Line>, d: seq<Line>, w: Word, tail: string)
    requires Lacks(a, w) && Lacks(b, w) && Lacks(c, w)
    ensures FirstRest(a + b + c + d, w, tail) == FirstRest(d, w, tail)
  {
    FirstRestConcat(a + b + c, d, w, tail);
    FirstRestConcat(a + b, c, w, tail);
    FirstRestConcat(a, b, w, tail);
    LackingHasNone(a, w, tail);
    LackingHasNone(b, w, tail);
    LackingHasNone(c, w, tail);
  }

  lemma ProxyHeadersLack()
    ensures Lacks(ProxyHeaders(), ProxyBuffering)
  {
  }

  lemma ProxyInnerRest(s: Site)
    ensures FirstRest(ProxyInner(s), ProxyBuffering, "off;").Some? <==> s.proxyBufferingOff
  {
    var c := if s.proxyBufferingOff then [Stmt(2, ProxyBuffering, "off;")] else [];
    ProxyHeadersLack();
    LastOfFour([Setting(2, ProxyPass, s.proxyPassUrl)], [Stmt(2, ProxyHttpVersion, "1.1;")], ProxyHeaders(), c,
               ProxyBuffering, "off;");
    OffRest(ProxyBuffering);
  }

  lemma BufferingRest(s: Site)
    ensures FirstRest(MainPart(s), ProxyBuffering, "off;").Some? <==> s.mode == "proxy" && s.proxyBufferingOff
  {
    if s.mode == "proxy" {
      LocationRest(ROOT, ProxyInner(s), ProxyBuffering, "off;");
      ProxyInnerRest(s);
    } else {
      LocationRest(ROOT, [Stmt(2, TryFiles, TRY_FILES)], ProxyBuffering, "off;");
      OtherWord(2, TryFiles, TRY_FILES, ProxyBuffering, "off;");
    }
  }

  lemma BufferingFound(s: Site, parts: seq<seq<Line>>, words: seq<set<Word>>)
    requires FineParts(parts, words) && OnlyIn(words, ProxyBuffering, 7) && parts[7] == MainPart(s)
    ensures FirstRest(Flat(parts), ProxyBuffering, "off;").Some? <==> s.mode == "proxy" && s.proxyBufferingOff
  {
    OnlyPart(parts, words, 7, ProxyBuffering, "off;");
    BufferingRest(s);
  }

  lemma ProxyFound(s: Site, parts: seq<seq<Line>>, words: seq<set<Word>>)
    requires FineParts(parts, words) && OnlyIn(words, ProxyPass, 7) && parts[7] == MainPart(s)
    ensures FirstRest(Flat(parts), ProxyPass, "").Some? <==> s.mode == "proxy"
  {
    OnlyPart(parts, words, 7, ProxyPass, "");
    ProxyPassRest(s);
  }
}
