/** Reading directives out of the lines of an nginx `server` block, and lines as they are printed. */
module NginxLines {
  import opened Text

  // ---------- Reading, on any lines

  /** What `extractDirective` makes of the text behind the directive's name. */
  function Value(raw: string): string {
    var v := TrimSpace(raw);
    var hash := Index(v, "#");
    var w := if hash.Some? then TrimSpace(v[..hash.value]) else v;
    TrimSpace(TrimSuffix(w, ";"))
  }

  predicate IsComment(line: string) {
    line == "" || HasPrefix(line, "#")
  }

  function Directive(lines: seq<string>, name: string): string {
    if lines == [] then ""
    else
      var line := TrimSpace(lines[0]);
      if !IsComment(line) && HasPrefix(line, name + " ") then Value(line[|name|..]) else Directive(lines[1..], name)
  }

  /** `extractDirective` */
  method ExtractDirective(lines: seq<string>, name: string) returns (value: string)
    ensures value == Directive(lines, name)
  {
    for i := 0 to |lines|
      invariant Directive(lines[i..], name) == Directive(lines, name)
    {
      var line := TrimSpace(lines[i]);
      if IsComment(line) {
        continue;
      }
      if !HasPrefix(line, name + " ") {
        continue;
      }
      return Value(line[|name|..]);
    }
    return "";
  }

  /** The search for a FastCGI socket: looking, inside or outside the location, or found. */
  datatype Search = Looking(inTarget: bool, depth: int) | Found(socket: string)

  function Count(s: string, c: char): nat {
    if s == [] then 0 else (if s[0] == c then 1 else 0) + Count(s[1..], c)
  }

  function Balance(line: string): int {
    Count(line, '{') - Count(line, '}')
  }

  function StripUnix(raw: string): string {
    var s := TrimSpace(raw);
    if HasPrefix(s, "unix:") then s[5..] else s
  }

  function SearchStep(st: Search, raw: string, needle: string): Search {
    var line := TrimSpace(raw);
    if st.Found? || IsComment(line) then st
    else if HasPrefix(line, "location ") then Looking(Contains(line, needle), Balance(line))
    else if st.inTarget && HasPrefix(line, "fastcgi_pass ") then Found(SocketAt(line))
    else if st.inTarget then
      if st.depth + Balance(line) <= 0 then Looking(false, 0) else Looking(true, st.depth + Balance(line))
    else st
  }

  function Searched(st: Search, lines: seq<string>, needle: string): Search
    decreases |lines|
  {
    if lines == [] then st else Searched(SearchStep(st, lines[0], needle), lines[1..], needle)
  }

  function Socket(lines: seq<string>, needle: string): string {
    var st := Searched(Looking(false, 0), lines, needle);
    if st.Found? then st.socket else ""
  }

  /** `extractFastCGISocket` */
  method ExtractFastCgiSocket(lines: seq<string>, needle: string) returns (socket: string)
    ensures socket == Socket(lines, needle)
  {
    var inTarget, depth := false, 0;
    for i := 0 to |lines|
      invariant Searched(Looking(inTarget, depth), lines[i..], needle) == Searched(Looking(false, 0), lines, needle)
    {
      assert lines[i..][1..] == lines[i + 1..];
      ghost var st := SearchStep(Looking(inTarget, depth), lines[i], needle);
      ghost var rest := lines[i + 1..];
      var line := TrimSpace(lines[i]);
      if IsComment(line) {
        continue;
      }
      if HasPrefix(line, "location ") {
        inTarget, depth := Contains(line, needle), Balance(line);
        continue;
      }
      if inTarget && HasPrefix(line, "fastcgi_pass ") {
        socket := SocketAt(line);
        FoundStays(Found(socket), rest, needle);
        return;
      }
      if inTarget {
        depth := depth + Balance(line);
        if depth <= 0 {
          inTarget, depth := false, 0;
        }
      }
    }
    return "";
  }

  /** The directive read out of its own line. */
  function SocketAt(line: string): string
    requires HasPrefix(line, "fastcgi_pass ")
  {
    StripUnix(Value(line[|"fastcgi_pass"|..]))
  }

  lemma {:induction false} FoundStays(st: Search, lines: seq<string>, needle: string)
    requires st.Found?
    ensures Searched(st, lines, needle) == st
    decreases |lines|
  {
    if lines != [] {
      FoundStays(st, lines[1..], needle);
    }
  }

  lemma {:induction false} SearchedConcat(st: Search, a: seq<string>, b: seq<string>, needle: string)
    ensures Searched(st, a + b, needle) == Searched(Searched(st, a, needle), b, needle)
    decreases |a|
  {
    if a == [] {
      assert a + b == b;
    } else {
      assert (a + b)[0] == a[0] && (a + b)[1..] == a[1..] + b;
      SearchedConcat(SearchStep(st, a[0], needle), a[1..], b, needle);
    }
  }

  // ---------- Lines as printed

  datatype Word =
    | Server | Listen | ServerName | SslCertificate | SslCertificateKey | Include | SslDhParam | AddHeader | Root
    | IndexWord | Location | Alias | TryFiles | AccessLog | Expires | FastcgiParam | FastcgiPass | ProxyPass
    | ProxyHttpVersion | ProxySetHeader | ProxyBuffering

  function Spell(w: Word): string {
    match w
    case Server => "server"
    case Listen => "listen"
    case ServerName => "server_name"
    case SslCertificate => "ssl_certificate"
    case SslCertificateKey => "ssl_certificate_key"
    case Include => "include"
    case SslDhParam => "ssl_dhparam"
    case AddHeader => "add_header"
    case Root => "root"
    case IndexWord => "index"
    case Location => "location"
    case Alias => "alias"
    case TryFiles => "try_files"
    case AccessLog => "access_log"
    case Expires => "expires"
    case FastcgiParam => "fastcgi_param"
    case FastcgiPass => "fastcgi_pass"
    case ProxyPass => "proxy_pass"
    case ProxyHttpVersion => "proxy_http_version"
    case ProxySetHeader => "proxy_set_header"
    case ProxyBuffering => "proxy_buffering"
  }

  datatype Line = Stmt(indent: nat, word: Word, rest: string) | Close(indent: nat) | Blank

  function Spaces(n: nat): string {
    seq(n, _ => ' ')
  }

  function TextOf(l: Line): string {
    match l
    case Stmt(n, w, rest) => Spaces(n) + Spell(w) + " " + rest
    case Close(n) => Spaces(n) + "}"
    case Blank => ""
  }

  function Texts(ls: seq<Line>): (r: seq<string>)
    ensures |r| == |ls|
  {
    if ls == [] then [] else [TextOf(ls[0])] + Texts(ls[1..])
  }

  lemma {:induction false} TextsConcat(a: seq<Line>, b: seq<Line>)
    ensures Texts(a + b) == Texts(a) + Texts(b)
  {
    if a == [] {
      assert a + b == b;
    } else {
      assert (a + b)[0] == a[0] && (a + b)[1..] == a[1..] + b;
      TextsConcat(a[1..], b);
    }
  }

  lemma {:induction false} TextsAt(ls: seq<Line>, i: nat)
    requires i < |ls|
    ensures Texts(ls)[i] == TextOf(ls[i])
  {
    if i > 0 {
      TextsAt(ls[1..], i - 1);
    }
  }

  /** The part behind the word is written without padding, comment or line break. */
  predicate Tidy(rest: string) {
    rest != "" && Trimmed(rest) && '\n' !in rest && '#' !in rest
  }

  predicate TidyLines(ls: seq<Line>) {
    forall l :: l in ls && l.Stmt? ==> Tidy(l.rest)
  }

  predicate IsLetter(c: char) {
    'a' <= c <= 'z' || c == '_'
  }

  lemma SpellIsLetters(w: Word)
    ensures Spell(w) != "" && forall i :: 0 <= i < |Spell(w)| ==> IsLetter(Spell(w)[i])
  {
  }

  lemma SpellOk(w: Word)
    ensures Spell(w) != "" && !IsSpace(Spell(w)[0]) && Spell(w)[0] != '#' && Spell(w)[0] != '}'
    ensures ' ' !in Spell(w) && '\n' !in Spell(w) && '{' !in Spell(w) && '}' !in Spell(w) && '#' !in Spell(w)
  {
    SpellIsLetters(w);
    LettersOk(Spell(w));
  }

  lemma LettersOk(s: string)
    requires s != "" && forall i :: 0 <= i < |s| ==> IsLetter(s[i])
    ensures !IsSpace(s[0]) && s[0] != '#' && s[0] != '}'
    ensures ' ' !in s && '\n' !in s && '{' !in s && '}' !in s && '#' !in s
  {
  }

  lemma SpellInjective(v: Word, w: Word)
    ensures Spell(v) == Spell(w) ==> v == w
  {
  }

  lemma {:induction false} TrimIndent(n: nat, t: string)
    requires t != "" && Trimmed(t)
    ensures TrimSpace(Spaces(n) + t) == t
  {
    if n == 0 {
      assert Spaces(0) + t == t;
      TrimSpaceTrimmed(t);
    } else {
      assert (Spaces(n) + t)[1..] == Spaces(n - 1) + t;
      TrimIndent(n - 1, t);
    }
  }

  lemma StmtTrimmed(l: Line)
    requires l.Stmt? && Tidy(l.rest)
    ensures TrimSpace(TextOf(l)) == Spell(l.word) + " " + l.rest && !IsComment(TrimSpace(TextOf(l)))
  {
    SpellOk(l.word);
    var t := Spell(l.word) + " " + l.rest;
    assert TextOf(l) == Spaces(l.indent) + t;
    assert t[0] == Spell(l.word)[0] && t[|t| - 1] == l.rest[|l.rest| - 1];
    TrimIndent(l.indent, t);
  }

  lemma OtherTrimmed(l: Line)
    requires !l.Stmt?
    ensures TrimSpace(TextOf(l)) == if l.Blank? then "" else "}"
  {
    if l.Close? {
      TrimIndent(l.indent, "}");
    }
  }

  /** Words followed by a space: one starts with the other only if they are the same word. */
  lemma SpacedPrefix(a: string, x: string, b: string, y: string)
    requires ' ' !in a && ' ' !in b
    ensures HasPrefix(a + " " + x, b + " " + y) <==> a == b && HasPrefix(x, y)
  {
    var s, p := a + " " + x, b + " " + y;
    assert a == b && HasPrefix(x, y) ==> x == y + x[|y|..];
    assert a == b && HasPrefix(x, y) ==> s == p + x[|y|..];
    if HasPrefix(s, p) {
      assert s[|b|] == p[|b|] == ' ' && s[|a|] == ' ';
      assert forall k :: 0 <= k < |a| ==> s[k] == a[k];
      assert forall k :: 0 <= k < |b| ==> s[k] == p[k] == b[k];
      assert s[..|a|] == a && s[..|b|] == p[..|b|] == b;
      assert s[|a| + 1..] == x && p[|b| + 1..] == y;
      assert x[..|y|] == s[|a| + 1..|p|] == p[|b| + 1..];
    }
  }

  // ---------- Directives of printed lines

  /** Rest of the first statement with this word whose rest starts with `tail`, without the tail. */
  function FirstRest(ls: seq<Line>, word: Word, tail: string): Option<string> {
    if ls == [] then None
    else if ls[0].Stmt? && ls[0].word == word && HasPrefix(ls[0].rest, tail) then Some(ls[0].rest[|tail|..])
    else FirstRest(ls[1..], word, tail)
  }

  lemma {:induction false} FirstRestConcat(a: seq<Line>, b: seq<Line>, word: Word, tail: string)
    ensures FirstRest(a + b, word, tail)
            == if FirstRest(a, word, tail).Some? then FirstRest(a, word, tail) else FirstRest(b, word, tail)
  {
    if a == [] {
      assert a + b == b;
    } else {
      assert (a + b)[0] == a[0] && (a + b)[1..] == a[1..] + b;
      FirstRestConcat(a[1..], b, word, tail);
    }
  }

  predicate Lacks(ls: seq<Line>, word: Word) {
    forall l :: l in ls && l.Stmt? ==> l.word != word
  }

  lemma {:induction false} LackingHasNone(ls: seq<Line>, word: Word, tail: string)
    requires Lacks(ls, word)
    ensures FirstRest(ls, word, tail) == None
  {
    if ls != [] {
      assert ls[0] in ls;
      LackingHasNone(ls[1..], word, tail);
    }
  }

  /** The directive's name with a space is the word, a space and the tail. */
  predicate IsNamed(name: string, word: Word, tail: string) {
    name + " " == Spell(word) + " " + tail
  }

  lemma PlainName(word: Word)
    ensures IsNamed(Spell(word), word, "")
  {
    assert Spell(word) + " " + "" == Spell(word) + " ";
  }

  lemma LineMatches(l: Line, name: string, word: Word, tail: string)
    requires IsNamed(name, word, tail) && (l.Stmt? ==> Tidy(l.rest))
    ensures var line := TrimSpace(TextOf(l));
            && (!IsComment(line) && HasPrefix(line, name + " ")
                <==> l.Stmt? && l.word == word && HasPrefix(l.rest, tail))
            && (l.Stmt? && l.word == word && HasPrefix(l.rest, tail) ==>
                  |name| <= |line| && line[|name|..] == " " + l.rest[|tail|..])
  {
    if l.Stmt? {
      StmtTrimmed(l);
      SpellOk(l.word);
      SpellOk(word);
      SpellInjective(l.word, word);
      SpacedPrefix(Spell(l.word), l.rest, Spell(word), tail);
      if l.word == word && HasPrefix(l.rest, tail) {
        MatchedRest(Spell(word), l.rest, tail, name);
      }
    } else {
      OtherTrimmed(l);
      SpellOk(word);
      assert |name + " "| >= 2;
    }
  }

  lemma MatchedRest(word: string, rest: string, tail: string, name: string)
    requires name + " " == word + " " + tail && HasPrefix(rest, tail)
    ensures var line := word + " " + rest; |name| <= |line| && line[|name|..] == " " + rest[|tail|..]
  {
    var line := word + " " + rest;
    assert rest == tail + rest[|tail|..];
    assert line == name + " " + rest[|tail|..];
    assert line == name + (" " + rest[|tail|..]);
  }

  /** `extractDirective` on printed lines. */
  lemma {:induction false} DirectiveOfLines(ls: seq<Line>, name: string, word: Word, tail: string)
    requires TidyLines(ls) && IsNamed(name, word, tail)
    ensures var r := FirstRest(ls, word, tail);
            Directive(Texts(ls), name) == if r.None? then "" else Value(" " + r.value)
  {
    if ls != [] {
      assert ls[0] in ls;
      LineMatches(ls[0], name, word, tail);
      DirectiveOfLines(ls[1..], name, word, tail);
    }
  }

  /** A value without comment sign, written with its semicolon, is read back. */
  lemma ValueReadsBack(v: string)
    requires Trimmed(v) && '#' !in v
    ensures Value(" " + v + ";") == v
  {
    var t := v + ";";
    assert Trimmed(t);
    TrimIndent(1, t);
    assert Spaces(1) + t == " " + v + ";";
    if Index(t, "#").Some? {
      ContainsChar(t, "#", '#');
    }
    TrimSpaceTrimmed(v);
    assert t[..|t| - 1] == v;
  }

  // ---------- Texts that occur in printed lines

  /** A text without line breaks that occurs in joined lines occurs in one of them. */
  lemma {:induction false} ContainsJoined(lines: seq<string>, needle: string)
    requires lines != [] && needle != "" && '\n' !in needle
    ensures Contains(Join(lines, "\n"), needle) <==> exists i :: 0 <= i < |lines| && Contains(lines[i], needle)
  {
    if |lines| > 1 {
      var rest := Join(lines[1..], "\n");
      ContainsJoined(lines[1..], needle);
      ContainsAcross(lines[0], rest, needle);
      assert forall i :: 0 <= i < |lines[1..]| ==> lines[1..][i] == lines[i + 1];
      if exists i :: 0 <= i < |lines| && Contains(lines[i], needle) {
        var i :| 0 <= i < |lines| && Contains(lines[i], needle);
        assert i > 0 ==> Contains(lines[1..][i - 1], needle);
      }
    }
  }

  lemma ContainsAcross(a: string, b: string, needle: string)
    requires needle != "" && '\n' !in needle
    ensures Contains(a + "\n" + b, needle) <==> Contains(a, needle) || Contains(b, needle)
  {
    var s := a + "\n" + b;
    forall i | 0 <= i <= |s| && OccursAt(s, needle, i) ensures Contains(a, needle) || Contains(b, needle) {
      OccurrenceSide(a, b, needle, i);
    }
    forall i | 0 <= i <= |a| && OccursAt(a, needle, i) ensures OccursAt(s, needle, i) {
      assert s[i..i + |needle|] == a[i..i + |needle|];
    }
    forall i | 0 <= i <= |b| && OccursAt(b, needle, i) ensures OccursAt(s, needle, |a| + 1 + i) {
      assert s[|a| + 1 + i..|a| + 1 + i + |needle|] == b[i..i + |needle|];
    }
  }

  lemma OccurrenceSide(a: string, b: string, needle: string, i: nat)
    requires needle != "" && '\n' !in needle && OccursAt(a + "\n" + b, needle, i)
    ensures Contains(a, needle) || Contains(b, needle)
  {
    var s := a + "\n" + b;
    assert forall j :: i <= j < i + |needle| ==> s[j] == s[i..i + |needle|][j - i] && s[j] in needle;
    assert s[|a|] == '\n';
    if i + |needle| <= |a| {
      assert a[i..i + |needle|] == s[i..i + |needle|];
      assert OccursAt(a, needle, i);
    } else if i > |a| {
      var k := i - |a| - 1;
      assert b[k..k + |needle|] == s[i..i + |needle|];
      assert OccursAt(b, needle, k);
    }
  }

  /** Where `head tail` can occur in a line: at its word, or behind it. */
  lemma OccurrenceInStmt(n: nat, word: string, rest: string, head: string, tail: string, i: nat)
    requires ' ' !in word && ' ' !in head && head != "" && OccursAt(Spaces(n) + word + " " + rest, head + " " + tail, i)
    ensures (HasSuffix(word, head) && HasPrefix(rest, tail)) || Contains(rest, head + " " + tail)
  {
    var s, needle := Spaces(n) + word + " " + rest, head + " " + tail;
    var p := n + |word|;
    assert s[i..i + |needle|] == needle;
    if i > p {
      var k := i - p - 1;
      assert rest[k..k + |needle|] == s[i..i + |needle|];
      assert OccursAt(rest, needle, k);
    } else {
      HeadEnds(n, word, rest, head, tail, i);
      assert word[|word| - |head|..] == s[i..i + |head|] == needle[..|head|] == head;
      assert rest[..|tail|] == s[p + 1..p + 1 + |tail|] == needle[|head| + 1..] == tail;
    }
  }

  /** An occurrence that starts before the line's space has its own space there. */
  lemma HeadEnds(n: nat, word: string, rest: string, head: string, tail: string, i: nat)
    requires ' ' !in word && ' ' !in head && head != "" && OccursAt(Spaces(n) + word + " " + rest, head + " " + tail, i)
    requires i <= n + |word|
    ensures i + |head| == n + |word| && i >= n
  {
    var s, needle := Spaces(n) + word + " " + rest, head + " " + tail;
    var p := n + |word|;
    assert forall k :: 0 <= k < |needle| ==> s[i + k] == s[i..i + |needle|][k] == needle[k];
    assert s[i] == head[0] != ' ';
    assert s[p] == ' ';
    assert forall k :: 0 <= k < n ==> s[k] == ' ';
    assert forall k :: n <= k < p ==> s[k] == word[k - n];
    assert forall k :: 0 <= k < |head| ==> needle[k] == head[k];
    assert forall j :: i <= j < i + |head| ==> s[j] == s[i..i + |needle|][j - i] == head[j - i] && s[j] in head;
    assert needle[|head|] == ' ';
    assert s[i + |head|] == ' ';
  }

  lemma ContainsStmt(n: nat, word: string, rest: string, head: string, tail: string)
    requires ' ' !in word && ' ' !in head && head != ""
    ensures Contains(Spaces(n) + word + " " + rest, head + " " + tail)
            <==> (HasSuffix(word, head) && HasPrefix(rest, tail)) || Contains(rest, head + " " + tail)
  {
    var s, needle := Spaces(n) + word + " " + rest, head + " " + tail;
    forall i | 0 <= i <= |s| && OccursAt(s, needle, i)
      ensures (HasSuffix(word, head) && HasPrefix(rest, tail)) || Contains(rest, needle)
    {
      OccurrenceInStmt(n, word, rest, head, tail, i);
    }
    if HasSuffix(word, head) && HasPrefix(rest, tail) {
      var front := Spaces(n) + word[..|word| - |head|];
      assert word == word[..|word| - |head|] + head && rest == tail + rest[|tail|..];
      assert s == front + needle + rest[|tail|..];
      assert OccursAt(s, needle, |front|);
    }
    forall i | 0 <= i <= |rest| && OccursAt(rest, needle, i) ensures OccursAt(s, needle, n + |word| + 1 + i) {
      var j := n + |word| + 1 + i;
      assert s[j..j + |needle|] == rest[i..i + |needle|];
    }
  }

  /** A text made of a word, a space and a tail occurs in the line. */
  predicate LineHas(l: Line, word: Word, tail: string) {
    l.Stmt? && ((l.word == word && HasPrefix(l.rest, tail)) || Contains(l.rest, Spell(word) + " " + tail))
  }

  /** Words that no other word ends in. */
  predicate Singular(word: Word) {
    word in {Location, ProxyPass, ProxyBuffering, AccessLog}
  }

  lemma SuffixEnds(s: string, t: string, k: nat)
    requires HasSuffix(s, t) && 1 <= k <= |t|
    ensures s[|s| - k] == t[|t| - k]
  {
    assert s[|s| - |t|..][|t| - k] == s[|s| - k];
  }

  lemma EndsLikeLocation(v: Word)
    requires HasSuffix(Spell(v), Spell(Location))
    ensures v == Location
  {
    SuffixEnds(Spell(v), Spell(Location), 2);
  }

  lemma EndsLikeProxyPass(v: Word)
    requires HasSuffix(Spell(v), Spell(ProxyPass))
    ensures v == ProxyPass
  {
    SuffixEnds(Spell(v), Spell(ProxyPass), 2);
    SuffixEnds(Spell(v), Spell(ProxyPass), 6);
  }

  lemma EndsLikeAccessLog(v: Word)
    requires HasSuffix(Spell(v), Spell(AccessLog))
    ensures v == AccessLog
  {
    SuffixEnds(Spell(v), Spell(AccessLog), 3);
  }

  lemma EndsLikeProxyBuffering(v: Word)
    requires HasSuffix(Spell(v), Spell(ProxyBuffering))
    ensures v == ProxyBuffering
  {
    SuffixEnds(Spell(v), Spell(ProxyBuffering), 1);
    SuffixEnds(Spell(v), Spell(ProxyBuffering), 2);
  }

  lemma SingularSuffix(v: Word, w: Word)
    requires Singular(w) && HasSuffix(Spell(v), Spell(w))
    ensures v == w
  {
    match w
    case Location => EndsLikeLocation(v);
    case ProxyPass => EndsLikeProxyPass(v);
    case AccessLog => EndsLikeAccessLog(v);
    case ProxyBuffering => EndsLikeProxyBuffering(v);
  }

  lemma ContainsLine(l: Line, word: Word, tail: string)
    requires Singular(word) && '\n' !in tail
    ensures Contains(TextOf(l), Spell(word) + " " + tail) <==> LineHas(l, word, tail)
  {
    SpellOk(word);
    if l.Stmt? {
      SpellOk(l.word);
      ContainsStmt(l.indent, Spell(l.word), l.rest, Spell(word), tail);
      if HasSuffix(Spell(l.word), Spell(word)) {
        SingularSuffix(l.word, word);
      }
    } else {
      OtherLacks(l, Spell(word), tail);
    }
  }

  lemma OtherLacks(l: Line, head: string, tail: string)
    requires !l.Stmt? && head != "" && head[0] != ' ' && head[0] != '}'
    ensures !Contains(TextOf(l), head + " " + tail)
  {
    var needle := head + " " + tail;
    assert needle[0] == head[0] && needle[0] in needle;
    LacksChar(TextOf(l), needle, head[0]);
  }

  /** Occurrence in a whole block of printed lines. */
  lemma ContainsLines(ls: seq<Line>, word: Word, tail: string)
    requires ls != [] && Singular(word) && '\n' !in tail
    ensures Contains(Join(Texts(ls), "\n"), Spell(word) + " " + tail) <==> exists l :: l in ls && LineHas(l, word, tail)
  {
    var needle := Spell(word) + " " + tail;
    SpellOk(word);
    ContainsJoined(Texts(ls), needle);
    forall i | 0 <= i < |ls| ensures Contains(Texts(ls)[i], needle) <==> LineHas(ls[i], word, tail) {
      TextsAt(ls, i);
      ContainsLine(ls[i], word, tail);
    }
    SomeLine(ls, Texts(ls), needle, word, tail);
  }

  lemma SomeLine(ls: seq<Line>, texts: seq<string>, needle: string, word: Word, tail: string)
    requires |texts| == |ls|
    requires forall i :: 0 <= i < |ls| ==> (Contains(texts[i], needle) <==> LineHas(ls[i], word, tail))
    ensures (exists i :: 0 <= i < |texts| && Contains(texts[i], needle))
            <==> exists l :: l in ls && LineHas(l, word, tail)
  {
    if l :| l in ls && LineHas(l, word, tail) {
      var i :| 0 <= i < |ls| && ls[i] == l;
      assert Contains(texts[i], needle);
    }
  }
}
