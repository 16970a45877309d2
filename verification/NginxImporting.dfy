/** Which sites a list keeps, and when an import succeeds. */
module NginxImporting {
  import opened Text
  import opened NginxScanner
  import opened NginxLines
  import opened NginxQuoting
  import opened NginxSites

  // ---------- Normalisation

  /** The site at `i` is the first one from `idx` on with its identifier, which was not seen before. */
  ghost predicate Novel(sites: seq<Site>, normal: Normalizer, idx: nat, seen: set<string>, i: nat) {
    && idx <= i < |sites| && normal(sites[i], i).id !in seen
    && forall j :: idx <= j < i ==> normal(sites[j], j).id != normal(sites[i], i).id
  }

  ghost predicate Wanted(sites: seq<Site>, normal: Normalizer, idx: nat, seen: set<string>, i: nat) {
    Novel(sites, normal, idx, seen, i) && normal(sites[i], i).serverName != ""
  }

  ghost predicate Ascending(at: seq<nat>) {
    forall k, l :: 0 <= k < l < |at| ==> at[k] < at[l]
  }

  /** These are the normal forms of the sites at these positions. */
  ghost predicate NormalAt(sites: seq<Site>, normal: Normalizer, at: seq<nat>, kept: seq<Site>) {
    |kept| == |at| && forall k :: 0 <= k < |at| ==> at[k] < |sites| && kept[k] == normal(sites[at[k]], at[k])
  }

  /** The positions of exactly the wanted sites. */
  ghost predicate AllWanted(sites: seq<Site>, normal: Normalizer, idx: nat, seen: set<string>, at: seq<nat>) {
    Ascending(at) && forall i: nat :: i in at <==> Wanted(sites, normal, idx, seen, i)
  }

  lemma WantedNext(sites: seq<Site>, normal: Normalizer, idx: nat, seen: set<string>, i: nat)
    requires idx < |sites| && i != idx
    ensures Wanted(sites, normal, idx, seen, i)
            <==> Wanted(sites, normal, idx + 1, seen + {normal(sites[idx], idx).id}, i)
  {
  }

  lemma AllWantedNext(sites: seq<Site>, normal: Normalizer, idx: nat, seen: set<string>, at: seq<nat>)
    requires idx < |sites| && AllWanted(sites, normal, idx + 1, seen + {normal(sites[idx], idx).id}, at)
    ensures AllWanted(sites, normal, idx, seen, if Wanted(sites, normal, idx, seen, idx) then [idx] + at else at)
  {
    forall i: nat | i != idx ensures i in at <==> Wanted(sites, normal, idx, seen, i) {
      WantedNext(sites, normal, idx, seen, i);
    }
    forall k | 0 <= k < |at| ensures at[k] > idx {
      assert at[k] in at;
    }
  }

  lemma WantedHere(sites: seq<Site>, normal: Normalizer, idx: nat, seen: set<string>)
    requires idx < |sites|
    ensures Wanted(sites, normal, idx, seen, idx)
            <==> normal(sites[idx], idx).id !in seen && normal(sites[idx], idx).serverName != ""
  {
  }

  lemma NormalAtNext(sites: seq<Site>, normal: Normalizer, idx: nat, at: seq<nat>, kept: seq<Site>)
    requires idx < |sites| && NormalAt(sites, normal, at, kept)
    ensures NormalAt(sites, normal, [idx] + at, [normal(sites[idx], idx)] + kept)
  {
  }

  lemma KeptStep(sites: seq<Site>, normal: Normalizer, idx: nat, seen: set<string>, kept: seq<Site>)
    requires idx < |sites|
    requires kept == KeptFrom(sites, normal, idx + 1, seen + {normal(sites[idx], idx).id})
    ensures KeptFrom(sites, normal, idx, seen)
            == if Wanted(sites, normal, idx, seen, idx) then [normal(sites[idx], idx)] + kept else kept
  {
    var s := normal(sites[idx], idx);
    WantedHere(sites, normal, idx, seen);
    assert s.id in seen ==> seen + {s.id} == seen;
    assert [] + kept == kept;
  }

  /** Kept are the named sites that are the first with their identifier, in their order; a nameless
      site still takes its identifier. */
  lemma {:induction false} KeptAre(sites: seq<Site>, normal: Normalizer, idx: nat, seen: set<string>)
    returns (at: seq<nat>)
    requires idx <= |sites|
    ensures AllWanted(sites, normal, idx, seen, at)
    ensures NormalAt(sites, normal, at, KeptFrom(sites, normal, idx, seen))
    decreases |sites| - idx
  {
    if idx == |sites| {
      at := [];
    } else {
      var seenNext := seen + {normal(sites[idx], idx).id};
      at := KeptAre(sites, normal, idx + 1, seenNext);
      var kept := KeptFrom(sites, normal, idx + 1, seenNext);
      AllWantedNext(sites, normal, idx, seen, at);
      KeptStep(sites, normal, idx, seen, kept);
      NormalAtNext(sites, normal, idx, at, kept);
      at := if Wanted(sites, normal, idx, seen, idx) then [idx] + at else at;
    }
  }

  lemma NormalSitesAre(sites: seq<Site>) returns (at: seq<nat>)
    ensures AllWanted(sites, NormalSite, 0, {}, at) && NormalAt(sites, NormalSite, at, NormalSites(sites))
  {
    at := KeptAre(sites, NormalSite, 0, {});
  }

  lemma BlankTrims()
    ensures TrimSpace("") == "" && ToLower("") == ""
  {
  }

  /** What a site gets that leaves everything blank. */
  lemma DefaultsOfASite(s: Site, idx: nat)
    requires TrimSpace(s.id) == "" && TrimSpace(s.mode) == "" && s.listenPort <= 0 && TrimSpace(s.indexFiles) == ""
    requires TrimSpace(s.staticExpires) == "" && TrimSpace(s.staticCacheControl) == ""
    ensures var n := NormalSite(s, idx);
            && n.id == "system-site-" + Itoa(idx + 1) && n.mode == "proxy" && n.listenPort == 443
            && n.indexFiles == "index.php index.html" && n.staticExpires == "1h" && n.staticCacheControl == "public"
  {
    BlankTrims();
  }

  // ---------- Import

  /** The first field that is a number, and 0 if none is. */
  lemma {:induction false} FirstNumberIs(fields: seq<string>)
    ensures (exists i :: 0 <= i < |fields| && Atoi(fields[i]) == Some(FirstNumber(fields))
                         && forall j :: 0 <= j < i ==> Atoi(fields[j]).None?)
            || (FirstNumber(fields) == 0 && forall f :: f in fields ==> Atoi(f).None?)
  {
    if fields != [] && Atoi(fields[0]).None? {
      FirstNumberIs(fields[1..]);
      if i :| 0 <= i < |fields| - 1 && Atoi(fields[1..][i]) == Some(FirstNumber(fields[1..]))
              && forall j :: 0 <= j < i ==> Atoi(fields[1..][j]).None? {
        assert forall j :: 1 <= j < i + 1 ==> fields[j] == fields[1..][j - 1];
        assert Atoi(fields[i + 1]) == Some(FirstNumber(fields));
      } else {
        assert forall f :: f in fields ==> f == fields[0] || f in fields[1..];
      }
    }
  }

  /** Block by block, what the reader makes of it. */
  ghost predicate EachRead(blocks: seq<string>, parse: (string, nat) -> Result<Site>, idx: nat, sites: seq<Site>) {
    |sites| == |blocks| && forall i :: 0 <= i < |blocks| ==> parse(blocks[i], idx + i) == Ok(sites[i])
  }

  /** The block at `i` is the first that cannot be read. */
  ghost predicate FailsFirst(blocks: seq<string>, parse: (string, nat) -> Result<Site>, idx: nat, i: nat,
                             error: string) {
    && i < |blocks| && parse(blocks[i], idx + i) == Err(error)
    && forall j :: 0 <= j < i ==> parse(blocks[j], idx + j).Ok?
  }

  lemma FailsAtOnce(blocks: seq<string>, parse: (string, nat) -> Result<Site>, idx: nat, error: string)
    requires blocks != [] && parse(blocks[0], idx) == Err(error)
    ensures FailsFirst(blocks, parse, idx, 0, error)
  {
    assert idx + 0 == idx;
  }

  lemma FailsLater(blocks: seq<string>, parse: (string, nat) -> Result<Site>, idx: nat, i: nat, error: string)
    requires blocks != [] && parse(blocks[0], idx).Ok? && FailsFirst(blocks[1..], parse, idx + 1, i, error)
    ensures FailsFirst(blocks, parse, idx, i + 1, error)
  {
    forall j | 0 <= j < i + 1 ensures parse(blocks[j], idx + j).Ok? {
      if j > 0 {
        assert blocks[1..][j - 1] == blocks[j] && parse(blocks[1..][j - 1], idx + 1 + (j - 1)).Ok?;
      }
    }
    assert blocks[1..][i] == blocks[i + 1];
  }

  lemma ReadFrom(blocks: seq<string>, parse: (string, nat) -> Result<Site>, idx: nat, s: Site, rest: seq<Site>)
    requires blocks != [] && parse(blocks[0], idx) == Ok(s) && EachRead(blocks[1..], parse, idx + 1, rest)
    ensures EachRead(blocks, parse, idx, [s] + rest)
  {
    forall i | 0 <= i < |blocks| ensures parse(blocks[i], idx + i) == Ok(([s] + rest)[i]) {
      if i > 0 {
        assert blocks[1..][i - 1] == blocks[i] && parse(blocks[1..][i - 1], idx + 1 + (i - 1)) == Ok(rest[i - 1]);
      }
    }
  }

  /** Every block is read, in order, or the first that cannot be decides the error. */
  lemma {:induction false} ParsedSitesAre(blocks: seq<string>, parse: (string, nat) -> Result<Site>, idx: nat)
    ensures match ParsedSites(blocks, parse, idx)
            case Ok(sites) => EachRead(blocks, parse, idx, sites)
            case Err(e) => exists i: nat :: FailsFirst(blocks, parse, idx, i, e)
    decreases |blocks|
  {
    if blocks != [] && parse(blocks[0], idx).Ok? {
      ParsedSitesAre(blocks[1..], parse, idx + 1);
      match ParsedSites(blocks[1..], parse, idx + 1)
      case Ok(rest) =>
        ReadFrom(blocks, parse, idx, parse(blocks[0], idx).value, rest);
      case Err(e) =>
        var i: nat :| FailsFirst(blocks[1..], parse, idx + 1, i, e);
        FailsLater(blocks, parse, idx, i, e);
        assert ParsedSites(blocks, parse, idx) == Err(e);
    } else if blocks != [] {
      var e := parse(blocks[0], idx).error;
      FailsAtOnce(blocks, parse, idx, e);
      assert ParsedSites(blocks, parse, idx) == Err(e);
    }
  }

  /** A block has a name: its `server_name` directive is not blank. */
  predicate Named(block: string) {
    TrimSpace(Directive(Split(block, '\n'), "server_name")) != ""
  }

  lemma OnlyNamesAreRead(lines: seq<string>, s: Site, block: string)
    ensures ReadPhp(ReadStatic(ReadProxy(ReadHead(s, lines), block, lines), block, lines), block, lines).serverName
            == Read(lines, "server_name")
  {
  }

  lemma NameOfBlock(block: string, idx: nat)
    ensures ReadSite(block, idx).serverName == Read(Split(block, '\n'), "server_name")
  {
    OnlyNamesAreRead(Split(block, '\n'), BlankSite(idx), block);
  }

  lemma TrimTwice(s: string)
    ensures TrimSpace(TrimSpace(s)) == TrimSpace(s)
  {
    TrimSpaceTrimmed(s);
    TrimSpaceTrimmed(TrimSpace(s));
  }

  lemma BlockIsReadIff(block: string, idx: nat)
    ensures ParsedSite(block, idx).Ok? <==> Named(block)
  {
    NameOfBlock(block, idx);
    TrimTwice(Directive(Split(block, '\n'), "server_name"));
  }

  lemma ReadIff(blocks: seq<string>, parse: (string, nat) -> Result<Site>, named: string -> bool)
    requires forall i :: 0 <= i < |blocks| ==> (parse(blocks[i], 0 + i).Ok? <==> named(blocks[i]))
    ensures ParsedSites(blocks, parse, 0).Ok? <==> forall i :: 0 <= i < |blocks| ==> named(blocks[i])
  {
    ParsedSitesAre(blocks, parse, 0);
    match ParsedSites(blocks, parse, 0)
    case Ok(sites) =>
      assert forall i :: 0 <= i < |blocks| ==> parse(blocks[i], 0 + i) == Ok(sites[i]);
    case Err(e) =>
      var i: nat :| FailsFirst(blocks, parse, 0, i, e);
  }

  /** An import succeeds exactly if the text holds a block and every block has a name. */
  lemma ImportSucceedsIff(raw: string)
    ensures var blocks := Blocks(raw, "", 0);
            Imported(raw).Ok? <==> blocks != [] && forall i :: 0 <= i < |blocks| ==> Named(blocks[i])
    ensures Blocks(raw, "", 0) == [] ==> Imported(raw) == Err("no nginx server blocks found")
  {
    var blocks := Blocks(raw, "", 0);
    forall i | 0 <= i < |blocks| ensures ParsedSite(blocks[i], 0 + i).Ok? <==> Named(blocks[i]) {
      BlockIsReadIff(blocks[i], i);
    }
    ReadIff(blocks, ParsedSite, Named);
  }

  /** What a block leaves out: port 443 with TLS, the usual paths, and a static site. */
  lemma ListenMissing(s: Site, lines: seq<string>)
    requires Directive(lines, "listen") == ""
    ensures ReadListen(s, lines) == s
  {
  }

  lemma BlankSiteIs(idx: nat)
    ensures var s := BlankSite(idx);
            && s.id == "system-site-" + Itoa(idx + 1) && s.mode == "static"
            && s.listenPort == 443 && s.ssl && !s.http2
            && s.indexFiles == "index.php index.html" && s.staticExpires == "1h" && s.staticCacheControl == "public"
            && !s.proxyBufferingOff && !s.accessLogOffStatic && !s.phpEnabled && !s.phpMyAdminEnabled
            && s.serverName == s.certPath == s.keyPath == s.rootPath == s.proxyPassUrl == s.staticAliasPath == ""
  {
  }

  lemma DefaultPaths(idx: nat)
    ensures BlankSite(idx).sslConfigPath == "/etc/letsencrypt/options-ssl-nginx.conf"
    ensures BlankSite(idx).sslDhParamPath == "/etc/letsencrypt/ssl-dhparams.pem"
    ensures BlankSite(idx).phpSocket == "/run/php/php8.1-fpm.sock"
    ensures BlankSite(idx).phpMyAdminSocket == "/run/php/phpmyadmin.sock"
  {
  }

  /** A number is read where it fits into 64 bits, and nowhere else. */
  lemma NumeralsAreRead(n: nat)
    ensures Atoi(Itoa(n)) == if n < 0x8000_0000_0000_0000 then Some(n as int) else None
    ensures Atoi("-" + Itoa(n)) == if n <= 0x8000_0000_0000_0000 then Some(0 - n as int) else None
  {
    NumeralValue(n);
    ItoaIsDigits(n);
    ItoaLast(n);
    assert Itoa(n)[0] in Itoa(n);
    DigitsAreRead(Itoa(n), n);
  }

  lemma DigitsAreRead(t: string, n: nat)
    requires t != "" && '0' <= t[0] <= '9' && DigitsValue(t) == Some(n)
    ensures Atoi(t) == if n < 0x8000_0000_0000_0000 then Some(n as int) else None
    ensures Atoi("-" + t) == if n <= 0x8000_0000_0000_0000 then Some(0 - n as int) else None
  {
    assert ("-" + t)[1..] == t;
  }

  lemma {:induction false} NumeralValue(n: nat)
    ensures DigitsValue(Itoa(n)) == Some(n)
  {
    ItoaLast(n);
    if n >= 10 {
      NumeralValue(n / 10);
      assert Itoa(n)[..|Itoa(n)| - 1] == Itoa(n / 10);
    }
  }

  /** A comment behind a value is cut off. */
  lemma CommentIsCutOff(v: string, comment: string)
    requires v != "" && Trimmed(v) && '#' !in v && Trimmed("#" + comment)
    ensures Value(" " + v + "; #" + comment) == v
  {
    var t := v + "; #" + comment;
    assert t[0] == v[0] && t == (v + "; ") + ("#" + comment);
    assert t[|t| - 1] == ("#" + comment)[|comment|];
    assert Spaces(1) + t == " " + v + "; #" + comment;
    TrimIndent(1, t);
    FirstHash(v + "; ", comment);
    assert t[..|v| + 2] == (v + ";") + [' '];
    TrimTail(v + ";", ' ');
    TrimSpaceTrimmed(v);
    assert (v + ";")[..|v|] == v;
  }

  lemma FirstHash(front: string, comment: string)
    requires '#' !in front
    ensures Index(front + ("#" + comment), "#") == Some(|front|)
  {
    var t := front + ("#" + comment);
    assert OccursAt(t, "#", |front|);
    forall i | 0 <= i < |front| ensures !OccursAt(t, "#", i) {
      assert t[i] == front[i];
      Mismatch(t, "#", i, 0);
    }
  }

  /** The characters of a server name. */
  lemma NameChars(c: char)
    ensures NameChar(c) <==> c in "._-*" || 'a' <= LowerChar(c) <= 'z' || '0' <= c <= '9'
  {
    var s := "._-*";
    assert s[0] == '.' && s[1] == '_' && s[2] == '-' && s[3] == '*';
  }

  /** The escapes of control characters. */
  lemma ControlEscapes()
    ensures Escape('\U{7}') == "\\a" && Escape('\U{8}') == "\\b" && Escape('\U{C}') == "\\f"
    ensures Escape('\n') == "\\n" && Escape('\r') == "\\r" && Escape('\t') == "\\t" && Escape('\U{B}') == "\\v"
    ensures Escape('\0') == "\\x00" && Escape('\U{7F}') == "\\x7f" && Escape('\U{A0}') == "\\u00a0"
  {
  }
}
