/** The FastCGI sockets the importer finds in a printed site. */
module NginxSockets {
  import opened Text
  import opened NginxScanner
  import opened NginxLines
  import opened NginxLayout
  import opened NginxQuoting
  import opened NginxSites
  import opened NginxParts
  import opened NginxReading
  import opened NginxSearching

  lemma SocketAfter(a: seq<Line>, loc: Line, x: Line, y: Line, pass: Line, rest: seq<Line>, socket: string,
                    needle: string)
    requires TidyLines(a) && Avoids(a, needle)
    requires Clean(loc) && loc.Stmt? && loc.word == Location && Contains("location " + loc.rest, needle)
    requires Clean(x) && x.Stmt? && x.word != Location && x.word != FastcgiPass
    requires Clean(y) && y.Stmt? && y.word != Location && y.word != FastcgiPass
    requires Clean(pass) && pass.Stmt? && pass.word == FastcgiPass && pass.rest == "unix:" + socket + ";"
    requires Trimmed(socket) && '#' !in socket
    ensures Socket(Texts(a + ([loc, x, y, pass] + rest)), needle) == socket
  {
    TextsConcat(a, [loc, x, y, pass] + rest);
    SearchedConcat(Looking(false, 0), Texts(a), Texts([loc, x, y, pass] + rest), needle);
    SearchOutside(a, 0, needle);
    var st := Searched(Looking(false, 0), Texts(a), needle);
    SocketFound(loc, x, y, pass, rest, st.depth, socket, needle);
  }

  lemma {:induction false} FlatConcat(a: seq<seq<Line>>, b: seq<seq<Line>>)
    ensures Flat(a + b) == Flat(a) + Flat(b)
  {
    if a == [] {
      assert a + b == b;
    } else {
      assert (a + b)[0] == a[0] && (a + b)[1..] == a[1..] + b;
      FlatConcat(a[1..], b);
    }
  }

  lemma FlatSplit(parts: seq<seq<Line>>, k: nat)
    requires k < |parts|
    ensures Flat(parts) == Flat(parts[..k]) + (parts[k] + Flat(parts[k + 1..]))
  {
    assert parts == parts[..k] + parts[k..];
    FlatConcat(parts[..k], parts[k..]);
    assert parts[k..][1..] == parts[k + 1..];
  }

  lemma AvoidsConcat(a: seq<Line>, b: seq<Line>, needle: string)
    requires Avoids(a, needle) && Avoids(b, needle)
    ensures Avoids(a + b, needle)
  {
  }

  lemma {:induction false} AvoidsFlat(parts: seq<seq<Line>>, needle: string)
    requires forall i :: 0 <= i < |parts| ==> Avoids(parts[i], needle)
    ensures Avoids(Flat(parts), needle)
  {
    if parts != [] {
      AvoidsFlat(parts[1..], needle);
      AvoidsConcat(parts[0], Flat(parts[1..]), needle);
    }
  }

  lemma WordlessAvoids(part: seq<Line>, words: set<Word>, needle: string)
    requires FinePart(part, words) && Location !in words
    ensures Avoids(part, needle)
  {
    forall l | l in part && l.Stmt? ensures l.word != Location {
      assert Fine(l, words);
    }
  }

  lemma LocationAvoids(location: string, inner: seq<Line>, needle: string)
    requires NoLocations(inner) && !Contains("location " + location, needle)
    ensures Avoids(LocationOf(location, inner) + [Blank], needle)
  {
  }

  lemma StaticAvoids(s: Site, needle: string)
    requires !Contains("location " + STATIC, needle)
    ensures Avoids(StaticPart(s), needle)
  {
    if s.staticAliasPath != "" {
      StaticHasNoLocations(s);
      LocationAvoids(STATIC, StaticInner(s), needle);
    }
  }

  lemma PhpMyAdminAvoids(s: Site, needle: string)
    requires !Contains("location " + PHPMYADMIN, needle) && !Contains("location " + PHPMYADMIN_PHP, needle)
    ensures Avoids(PhpMyAdminPart(s), needle)
  {
    if s.phpMyAdminEnabled {
      FastCgiHasNoLocations(s.phpMyAdminSocket);
      LocationAvoids(PHPMYADMIN, PhpMyAdminIndex(), needle);
      LocationAvoids(PHPMYADMIN_PHP, FastCgiInner(s.phpMyAdminSocket), needle);
      AvoidsConcat(LocationOf(PHPMYADMIN, PhpMyAdminIndex()) + [Blank],
                   LocationOf(PHPMYADMIN_PHP, FastCgiInner(s.phpMyAdminSocket)) + [Blank], needle);
    }
  }

  // ---------- Which location lines match

  const S_PHPMYADMIN := "^/phpmyadmin/"
  const S_PHP := "\\.php$"

  lemma StaticDoesNotMatch()
    ensures !Contains("location " + STATIC, S_PHPMYADMIN) && !Contains("location " + STATIC, S_PHP)
  {
    assert S_PHPMYADMIN[0] == '^' && S_PHP[0] == '\\';
    LacksChar("location " + STATIC, S_PHPMYADMIN, '^');
    LacksChar("location " + STATIC, S_PHP, '\\');
  }

  lemma PhpMyAdminDoesNotMatch()
    ensures !Contains("location " + PHPMYADMIN, S_PHPMYADMIN) && !Contains("location " + PHPMYADMIN, S_PHP)
  {
    assert S_PHPMYADMIN[0] == '^' && S_PHP[0] == '\\';
    LacksChar("location " + PHPMYADMIN, S_PHPMYADMIN, '^');
    LacksChar("location " + PHPMYADMIN, S_PHP, '\\');
  }

  lemma PhpMatches()
    ensures Contains("location " + PHP, S_PHP)
  {
    assert ("location " + PHP)[11..11 + |S_PHP|] == S_PHP;
    assert OccursAt("location " + PHP, S_PHP, 11);
  }

  lemma PhpMyAdminPhpMatches()
    ensures Contains("location " + PHPMYADMIN_PHP, S_PHPMYADMIN)
  {
    assert "location " + PHPMYADMIN_PHP == "location ~ " + S_PHPMYADMIN + "(.+\\.php)$ {";
    ContainsMiddle("location ~ ", S_PHPMYADMIN, "(.+\\.php)$ {");
  }

  lemma ContainsMiddle(a: string, needle: string, b: string)
    ensures Contains(a + needle + b, needle)
  {
    assert (a + needle + b)[|a|..|a| + |needle|] == needle;
    assert OccursAt(a + needle + b, needle, |a|);
  }

  /** The only backslash is followed by `.php)`. */
  lemma PhpMyAdminPhpIsNotPhp()
    ensures !Contains("location " + PHPMYADMIN_PHP, S_PHP)
  {
    var t := "location " + PHPMYADMIN_PHP;
    assert t[27] == '\\' && t[32] == ')' && S_PHP[0] == '\\' && S_PHP[5] == '$';
    forall i | 0 <= i <= |t| ensures !OccursAt(t, S_PHP, i) {
      if i + 5 < |t| {
        OneBackslash(i);
        Mismatch(t, S_PHP, i, if i == 27 then 5 else 0);
      }
    }
  }

  lemma OneBackslash(i: nat)
    requires i < |"location " + PHPMYADMIN_PHP|
    ensures ("location " + PHPMYADMIN_PHP)[i] == '\\' ==> i == 27
  {
  }

  // ---------- The sockets of a site

  /** Lines from the frame's opening on. */
  lemma FrameAround(before: seq<Line>, x: seq<Line>, after: seq<Line>)
    ensures Block(before + (x + after)) == ([Stmt(0, Server, "{")] + before) + (x + (after + [Close(0)]))
  {
  }

  lemma FrontAvoids(before: seq<Line>, needle: string)
    requires TidyLines(before) && Avoids(before, needle)
    ensures TidyLines([Stmt(0, Server, "{")] + before) && Avoids([Stmt(0, Server, "{")] + before, needle)
  {
    assert Tidy("{");
  }

  lemma CleanIsTidy(ls: seq<Line>)
    requires CleanLines(ls)
    ensures TidyLines(ls)
  {
  }

  lemma FastCgiLines(location: string, socket: string, words: set<Word>)
    requires GoodLocation(location) && FineInner(FastCgiInner(socket), words)
    ensures var ls := LocationOf(location, FastCgiInner(socket)) + [Blank];
            && ls == [Stmt(1, Location, location), Stmt(2, Include, "fastcgi_params;"), Stmt(2, FastcgiParam, SCRIPT),
                      Setting(2, FastcgiPass, "unix:" + socket)] + [Close(1), Blank]
            && Clean(Stmt(1, Location, location)) && Clean(Stmt(2, Include, "fastcgi_params;"))
            && Clean(Stmt(2, FastcgiParam, SCRIPT)) && Clean(Setting(2, FastcgiPass, "unix:" + socket))
  {
    var inner := FastCgiInner(socket);
    assert inner[0] == Stmt(2, Include, "fastcgi_params;") && inner[1] == Stmt(2, FastcgiParam, SCRIPT)
           && inner[2] == Setting(2, FastcgiPass, "unix:" + socket);
    assert Fine(inner[0], words) && Fine(inner[1], words) && Fine(inner[2], words);
  }

  lemma Regroup4(h: seq<Line>, t: seq<Line>, after: seq<Line>, last: Line)
    ensures (h + t) + (after + [last]) == h + (t + (after + [last]))
  {
  }

  /** Four FastCGI lines behind lines that do not match. */
  lemma SocketOfLines(before: seq<Line>, a: Line, b: Line, c: Line, d: Line, t: seq<Line>, after: seq<Line>,
                      socket: string, needle: string)
    requires CleanLines(before) && Avoids(before, needle)
    requires Clean(a) && a.Stmt? && a.word == Location && Contains("location " + a.rest, needle)
    requires Clean(b) && b.Stmt? && b.word == Include && Clean(c) && c.Stmt? && c.word == FastcgiParam
    requires Clean(d) && d.Stmt? && d.word == FastcgiPass && d.rest == "unix:" + socket + ";"
    requires Trimmed(socket) && '#' !in socket
    ensures Socket(Texts(Block(before + (([a, b, c, d] + t) + after))), needle) == socket
  {
    FrameAround(before, [a, b, c, d] + t, after);
    CleanIsTidy(before);
    FrontAvoids(before, needle);
    Regroup4([a, b, c, d], t, after, Close(0));
    SocketAfter([Stmt(0, Server, "{")] + before, a, b, c, d, t + (after + [Close(0)]), socket, needle);
  }

  /** A FastCGI location behind lines that do not match. */
  lemma SocketOf(before: seq<Line>, location: string, socket: string, after: seq<Line>, words: set<Word>,
                 needle: string)
    requires CleanLines(before) && Avoids(before, needle)
    requires GoodLocation(location) && FineInner(FastCgiInner(socket), words)
            && Contains("location " + location, needle)
    requires Trimmed(socket) && '#' !in socket
    ensures Socket(Texts(Block(before + ((LocationOf(location, FastCgiInner(socket)) + [Blank]) + after))), needle)
            == socket
  {
    FastCgiLines(location, socket, words);
    SocketOfLines(before, Stmt(1, Location, location), Stmt(2, Include, "fastcgi_params;"),
      Stmt(2, FastcgiParam, SCRIPT),
                  Setting(2, FastcgiPass, "unix:" + socket), [Close(1), Blank], after, socket, needle);
  }

  lemma HeadsAvoid(parts: seq<seq<Line>>, words: seq<set<Word>>, needle: string)
    requires FineParts(parts, words) && |parts| == 8 && forall j :: 0 <= j < 4 ==> Location !in words[j]
    ensures forall j :: 0 <= j < 4 ==> Avoids(parts[j], needle)
  {
    forall j | 0 <= j < 4 ensures Avoids(parts[j], needle) {
      WordlessAvoids(parts[j], words[j], needle);
    }
  }

  lemma PhpFrontAvoids(s: Site, parts: seq<seq<Line>>, words: seq<set<Word>>)
    requires PartsOf(s, parts, words)
    ensures forall j :: 0 <= j < 6 ==> Avoids(parts[j], S_PHP)
  {
    HeadsAvoid(parts, words, S_PHP);
    LocationsAvoid(s);
    SixAvoid(parts, S_PHP);
  }

  lemma SixAvoid(parts: seq<seq<Line>>, needle: string)
    requires |parts| == 8 && Avoids(parts[4], needle) && Avoids(parts[5], needle)
    requires forall j :: 0 <= j < 4 ==> Avoids(parts[j], needle)
    ensures forall j :: 0 <= j < 6 ==> Avoids(parts[j], needle)
  {
  }

  lemma LocationsAvoid(s: Site)
    ensures Avoids(StaticPart(s), S_PHP) && Avoids(PhpMyAdminPart(s), S_PHP)
  {
    StaticDoesNotMatch();
    PhpMyAdminDoesNotMatch();
    PhpMyAdminPhpIsNotPhp();
    StaticAvoids(s, S_PHP);
    PhpMyAdminAvoids(s, S_PHP);
  }

  lemma FrontIsClean(parts: seq<seq<Line>>, words: seq<set<Word>>, k: nat, needle: string)
    requires FineParts(parts, words) && k < |parts| && forall j :: 0 <= j < k ==> Avoids(parts[j], needle)
    ensures CleanLines(Flat(parts[..k])) && Avoids(Flat(parts[..k]), needle)
  {
    AvoidsFlat(parts[..k], needle);
    FlatIsFine(parts[..k], words[..k]);
  }

  lemma PhpSocket(s: Site, parts: seq<seq<Line>>, words: seq<set<Word>>)
    requires PartsOf(s, parts, words) && s.phpEnabled
    requires Trimmed(s.phpSocket) && PlainText("unix:" + s.phpSocket + ";")
    ensures Socket(Texts(Block(Flat(parts))), S_PHP) == s.phpSocket
  {
    PhpFrontAvoids(s, parts, words);
    FrontIsClean(parts, words, 6, S_PHP);
    FlatSplit(parts, 6);
    PhpSocketBehind(s.phpSocket, Flat(parts[..6]), Flat(parts[7..]));
  }

  lemma PhpSocketBehind(socket: string, before: seq<Line>, after: seq<Line>)
    requires CleanLines(before) && Avoids(before, S_PHP) && Trimmed(socket) && PlainText("unix:" + socket + ";")
    ensures Socket(Texts(Block(before + ((LocationOf(PHP, FastCgiInner(socket)) + [Blank]) + after))), S_PHP) == socket
  {
    PhpLocation();
    PhpMatches();
    FastCgiIsFine(socket, PHP_WORDS);
    SocketIsClean(socket);
    SocketOf(before, PHP, socket, after, PHP_WORDS, S_PHP);
  }

  lemma SocketIsClean(socket: string)
    requires '#' !in "unix:" + socket + ";"
    ensures '#' !in socket
  {
    var t := "unix:" + socket + ";";
    assert forall i :: 0 <= i < |socket| ==> t[i + 5] == socket[i];
  }

  lemma PhpMyAdminFrontAvoids(s: Site, parts: seq<seq<Line>>, words: seq<set<Word>>)
    requires PartsOf(s, parts, words)
    ensures forall j :: 0 <= j < 5 ==> Avoids(parts[j], S_PHPMYADMIN)
  {
    StaticDoesNotMatch();
    HeadsAvoid(parts, words, S_PHPMYADMIN);
    StaticAvoids(s, S_PHPMYADMIN);
  }

  lemma PhpMyAdminSocket(s: Site, parts: seq<seq<Line>>, words: seq<set<Word>>)
    requires PartsOf(s, parts, words) && s.phpMyAdminEnabled
    requires Trimmed(s.phpMyAdminSocket) && PlainText("unix:" + s.phpMyAdminSocket + ";")
    ensures Socket(Texts(Block(Flat(parts))), S_PHPMYADMIN) == s.phpMyAdminSocket
  {
    PhpMyAdminFrontAvoids(s, parts, words);
    FrontIsClean(parts, words, 5, S_PHPMYADMIN);
    FlatSplit(parts, 5);
    PhpMyAdminSocketBehind(s.phpMyAdminSocket, Flat(parts[..5]), Flat(parts[6..]));
  }

  lemma IndexPartAvoids()
    ensures Avoids(LocationOf(PHPMYADMIN, PhpMyAdminIndex()) + [Blank], S_PHPMYADMIN)
  {
    PhpMyAdminDoesNotMatch();
    LocationAvoids(PHPMYADMIN, PhpMyAdminIndex(), S_PHPMYADMIN);
  }

  lemma PhpMyAdminSocketBehind(socket: string, before: seq<Line>, after: seq<Line>)
    requires CleanLines(before) && Avoids(before, S_PHPMYADMIN) && Trimmed(socket) && PlainText("unix:" + socket + ";")
    ensures var x := LocationOf(PHPMYADMIN, PhpMyAdminIndex()) + [Blank];
            var y := LocationOf(PHPMYADMIN_PHP, FastCgiInner(socket)) + [Blank];
            Socket(Texts(Block(before + ((x + y) + after))), S_PHPMYADMIN) == socket
  {
    var x := LocationOf(PHPMYADMIN, PhpMyAdminIndex()) + [Blank];
    IndexPartAvoids();
    IndexPartIsClean();
    AvoidsConcat(before, x, S_PHPMYADMIN);
    PassedOver(before, x, LocationOf(PHPMYADMIN_PHP, FastCgiInner(socket)) + [Blank], after);
    PhpMyAdminPass(socket, before + x, after);
  }

  lemma PassedOver(before: seq<Line>, x: seq<Line>, y: seq<Line>, after: seq<Line>)
    ensures before + ((x + y) + after) == (before + x) + (y + after)
  {
  }

  lemma PhpMyAdminPass(socket: string, before: seq<Line>, after: seq<Line>)
    requires CleanLines(before) && Avoids(before, S_PHPMYADMIN) && Trimmed(socket) && PlainText("unix:" + socket + ";")
    ensures Socket(Texts(Block(before + ((LocationOf(PHPMYADMIN_PHP, FastCgiInner(socket)) + [Blank]) + after))),
                   S_PHPMYADMIN)
            == socket
  {
    PhpMyAdminPhpLocation();
    PhpMyAdminPhpMatches();
    FastCgiIsFine(socket, PHPMYADMIN_WORDS);
    SocketIsClean(socket);
    SocketOf(before, PHPMYADMIN_PHP, socket, after, PHPMYADMIN_WORDS, S_PHPMYADMIN);
  }

  lemma IndexPartIsClean()
    ensures CleanLines(LocationOf(PHPMYADMIN, PhpMyAdminIndex()) + [Blank])
  {
    IndexPhpIsFine();
    TryPhpMyAdminIsFine();
    InnerConcat([Stmt(2, IndexWord, "index.php;")], [Stmt(2, TryFiles, TRY_PHPMYADMIN)], PHPMYADMIN_WORDS);
    PhpMyAdminLocation();
    FineLocation(PHPMYADMIN, PhpMyAdminIndex(), PHPMYADMIN_WORDS);
    var x := LocationOf(PHPMYADMIN, PhpMyAdminIndex()) + [Blank];
    forall l | l in x ensures Clean(l) {
      assert Fine(l, PHPMYADMIN_WORDS);
    }
  }
}
