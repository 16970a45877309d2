/** Printed lines as the scanner and the socket search see them. */
module NginxLayout {
  import opened Text
  import opened NginxScanner
  import opened NginxLines

  predicate Braceless(s: string) {
    '{' !in s && '}' !in s && '#' !in s
  }

  /** A statement that opens a group ends in the one brace of its line. */
  predicate Opens(rest: string) {
    rest != "" && rest[|rest| - 1] == '{' && Braceless(rest[..|rest| - 1])
  }

  predicate Clean(l: Line) {
    l.Stmt? ==> Tidy(l.rest) && if l.word == Location then Opens(l.rest) else Braceless(l.rest)
  }

  predicate CleanLines(ls: seq<Line>) {
    forall l :: l in ls ==> Clean(l)
  }

  lemma {:induction false} DepthOfPlain(s: string, d: nat)
    requires Braceless(s)
    ensures Depth(s, d) == Some(d)
  {
    if s != [] {
      DepthOfPlain(s[1..], d);
    }
  }

  /** Depth after a line. */
  function LineDepth(l: Line, d: nat): Option<nat> {
    match l
    case Blank => Some(d)
    case Close(_) => if d <= 1 then None else Some(d - 1)
    case Stmt(_, w, _) => if w == Location then Some(d + 1) else Some(d)
  }

  function Nest(ls: seq<Line>, d: nat): Option<nat> {
    if ls == [] then Some(d)
    else match LineDepth(ls[0], d) case None => None case Some(e) => Nest(ls[1..], e)
  }

  lemma {:induction false} NestConcat(a: seq<Line>, b: seq<Line>, d: nat)
    requires Nest(a, d).Some?
    ensures Nest(a + b, d) == Nest(b, Nest(a, d).value)
    decreases |a|
  {
    if a == [] {
      assert a + b == b;
    } else {
      assert (a + b)[0] == a[0] && (a + b)[1..] == a[1..] + b;
      NestConcat(a[1..], b, LineDepth(a[0], d).value);
    }
  }

  lemma StmtDepth(n: nat, word: string, rest: string, d: nat)
    requires Braceless(word)
    ensures Braceless(rest) ==> Depth(Spaces(n) + word + " " + rest + "\n", d) == Some(d)
    ensures Opens(rest) ==> Depth(Spaces(n) + word + " " + rest + "\n", d) == Some(d + 1)
  {
    var front := Spaces(n) + word + " ";
    if Opens(rest) {
      var r := rest[..|rest| - 1];
      assert rest == r + "{";
      assert front + rest + "\n" == (front + r) + "{\n";
      DepthOfPlain(front + r, d);
      DepthConcat(front + r, "{\n", d);
      assert "{\n"[1..] == "\n";
      DepthOfPlain("\n", d + 1);
    } else if Braceless(rest) {
      DepthOfPlain(front + rest + "\n", d);
    }
  }

  lemma TextDepth(l: Line, d: nat)
    requires Clean(l) && LineDepth(l, d).Some?
    ensures Depth(TextOf(l) + "\n", d) == LineDepth(l, d)
  {
    match l
    case Blank =>
      assert "" + "\n" == "\n";
      DepthOfPlain("\n", d);
    case Close(n) =>
      DepthOfPlain(Spaces(n), d);
      assert Spaces(n) + "}" + "\n" == Spaces(n) + "}\n";
      DepthConcat(Spaces(n), "}\n", d);
      assert "}\n"[1..] == "\n";
      DepthOfPlain("\n", d - 1);
    case Stmt(n, w, rest) =>
      SpellOk(w);
      StmtDepth(n, Spell(w), rest, d);
  }

  /** All lines, each with its line break. */
  function Whole(ls: seq<Line>): string {
    if ls == [] then "" else TextOf(ls[0]) + "\n" + Whole(ls[1..])
  }

  lemma {:induction false} WholeIsJoined(ls: seq<Line>)
    requires ls != []
    ensures Whole(ls) == Join(Texts(ls), "\n") + "\n"
  {
    if |ls| > 1 {
      WholeIsJoined(ls[1..]);
      assert Texts(ls)[1..] == Texts(ls[1..]);
    } else {
      assert Whole(ls) == TextOf(ls[0]) + "\n" + "";
    }
  }

  lemma {:induction false} WholeConcat(a: seq<Line>, b: seq<Line>)
    ensures Whole(a + b) == Whole(a) + Whole(b)
  {
    if a == [] {
      assert a + b == b;
    } else {
      assert (a + b)[0] == a[0] && (a + b)[1..] == a[1..] + b;
      WholeConcat(a[1..], b);
      assert TextOf(a[0]) + "\n" + (Whole(a[1..]) + Whole(b)) == TextOf(a[0]) + "\n" + Whole(a[1..]) + Whole(b);
    }
  }

  lemma {:induction false} WholeDepth(ls: seq<Line>, d: nat)
    requires CleanLines(ls) && Nest(ls, d).Some?
    ensures Depth(Whole(ls), d) == Nest(ls, d)
    decreases |ls|
  {
    if ls != [] {
      assert ls[0] in ls;
      TextDepth(ls[0], d);
      DepthConcat(TextOf(ls[0]) + "\n", Whole(ls[1..]), d);
      WholeDepth(ls[1..], LineDepth(ls[0], d).value);
    }
  }

  /** `server {`, lines that nest, and `}`. */
  function Block(inner: seq<Line>): seq<Line> {
    [Stmt(0, Server, "{")] + inner + [Close(0)]
  }

  lemma OneLine(l: Line)
    ensures Whole([l]) == TextOf(l) + "\n"
  {
    var t := TextOf(l);
    assert Whole([l]) == t + "\n" + Whole([l][1..]);
    EmptyTail(t + "\n");
  }

  lemma EmptyTail(t: string)
    ensures t + Whole([]) == t
  {
  }

  lemma WholeFrame(first: Line, inner: seq<Line>, last: Line)
    ensures Whole([first] + inner + [last]) == TextOf(first) + ("\n" + Whole(inner)) + TextOf(last) + "\n"
  {
    WholeConcat([first] + inner, [last]);
    WholeConcat([first], inner);
    OneLine(first);
    OneLine(last);
    Regroup(TextOf(first), Whole(inner), TextOf(last));
  }

  lemma Regroup(a: string, w: string, b: string)
    ensures (a + "\n") + w + (b + "\n") == a + ("\n" + w) + b + "\n"
  {
  }

  lemma BlockIsFramed(inner: seq<Line>)
    ensures Join(Texts(Block(inner)), "\n") == "server {" + ("\n" + Whole(inner)) + "}"
  {
    WholeFrame(Stmt(0, Server, "{"), inner, Close(0));
    WholeIsJoined(Block(inner));
    FrameTexts();
    SameButLast(Join(Texts(Block(inner)), "\n"), "server {" + ("\n" + Whole(inner)) + "}");
  }

  lemma SameButLast(a: string, b: string)
    ensures a + "\n" == b + "\n" ==> a == b
  {
    assert (a + "\n")[..|a|] == a && (b + "\n")[..|b|] == b;
    assert |a + "\n"| == |a| + 1 && |b + "\n"| == |b| + 1;
  }

  lemma FramedIsBlock(body: string)
    requires Depth(body, 1) == Some(1)
    ensures IsBlock("server {" + body + "}")
  {
    var b := "server {" + body + "}";
    assert b[..|OPENING|] == OPENING && b[|OPENING|..|b| - 1] == body;
  }

  lemma NestedLinesAreABlock(inner: seq<Line>)
    requires CleanLines(inner) && Nest(inner, 1) == Some(1)
    ensures IsBlock(Join(Texts(Block(inner)), "\n"))
  {
    BlockIsFramed(inner);
    DepthOfPlain("\n", 1);
    DepthConcat("\n", Whole(inner), 1);
    WholeDepth(inner, 1);
    FramedIsBlock("\n" + Whole(inner));
  }

  lemma FrameTexts()
    ensures TextOf(Stmt(0, Server, "{")) == "server {" && TextOf(Close(0)) == "}"
  {
    assert Spaces(0) == "";
  }

  // ---------- Socket search

  lemma {:induction false} CountFree(s: string, c: char)
    requires c !in s
    ensures Count(s, c) == 0
  {
    if s != [] {
      CountFree(s[1..], c);
    }
  }

  lemma {:induction false} CountConcat(a: string, b: string, c: char)
    ensures Count(a + b, c) == Count(a, c) + Count(b, c)
  {
    if a == [] {
      assert a + b == b;
    } else {
      assert (a + b)[0] == a[0] && (a + b)[1..] == a[1..] + b;
      CountConcat(a[1..], b, c);
    }
  }

  lemma StmtBalance(word: string, rest: string)
    requires Braceless(word)
    ensures Braceless(rest) ==> Balance(word + " " + rest) == 0
    ensures Opens(rest) ==> Balance(word + " " + rest) == 1
  {
    var s := word + " " + rest;
    if Braceless(rest) {
      CountFree(s, '{');
      CountFree(s, '}');
    } else if Opens(rest) {
      var t := word + " " + rest[..|rest| - 1];
      assert s == t + "{";
      CountFree(t, '{');
      CountFree(t, '}');
      CountConcat(t, "{", '{');
      CountConcat(t, "{", '}');
      assert "{"[1..] == "";
    }
  }

  /** A line that matters to the search: a location, or the pass. */
  lemma LineStarts(l: Line, word: Word)
    requires l.Stmt? && Tidy(l.rest)
    ensures HasPrefix(TrimSpace(TextOf(l)), Spell(word) + " ") <==> l.word == word
  {
    PlainName(word);
    StmtTrimmed(l);
    LineMatches(l, Spell(word), word, "");
  }

  lemma OtherStarts(l: Line, word: Word)
    requires !l.Stmt?
    ensures !HasPrefix(TrimSpace(TextOf(l)), Spell(word) + " ")
  {
    OtherTrimmed(l);
    SpellOk(word);
  }

  lemma StepOutside(l: Line, d: int, needle: string)
    requires l.Stmt? ==> Tidy(l.rest)
    requires l.Stmt? && l.word == Location ==> !Contains("location " + l.rest, needle)
    ensures var st := SearchStep(Looking(false, d), TextOf(l), needle); st.Looking? && !st.inTarget
  {
    if l.Stmt? {
      StmtTrimmed(l);
      LineStarts(l, Location);
      assert "location" + " " == "location ";
    } else {
      OtherStarts(l, Location);
    }
  }

  predicate Avoids(ls: seq<Line>, needle: string) {
    forall l :: l in ls && l.Stmt? && l.word == Location ==> !Contains("location " + l.rest, needle)
  }

  lemma {:induction false} SearchOutside(ls: seq<Line>, d: int, needle: string)
    requires TidyLines(ls) && Avoids(ls, needle)
    ensures var st := Searched(Looking(false, d), Texts(ls), needle); st.Looking? && !st.inTarget
    decreases |ls|
  {
    if ls != [] {
      assert ls[0] in ls;
      StepOutside(ls[0], d, needle);
      SearchOutside(ls[1..], SearchStep(Looking(false, d), TextOf(ls[0]), needle).depth, needle);
    }
  }

  lemma StepIntoTarget(l: Line, d: int, needle: string)
    requires Clean(l) && l.Stmt? && l.word == Location && Contains("location " + l.rest, needle)
    ensures SearchStep(Looking(false, d), TextOf(l), needle) == Looking(true, 1)
  {
    StmtTrimmed(l);
    LineStarts(l, Location);
    assert "location" + " " == "location ";
    SpellOk(Location);
    StmtBalance("location", l.rest);
  }

  lemma StepInTarget(l: Line, needle: string)
    requires Clean(l) && l.Stmt? && l.word != Location && l.word != FastcgiPass
    ensures SearchStep(Looking(true, 1), TextOf(l), needle) == Looking(true, 1)
  {
    StmtTrimmed(l);
    LineStarts(l, Location);
    LineStarts(l, FastcgiPass);
    assert "location" + " " == "location " && "fastcgi_pass" + " " == "fastcgi_pass ";
    SpellOk(l.word);
    StmtBalance(Spell(l.word), l.rest);
  }

  lemma PassIsFound(raw: string, d: int, needle: string)
    requires var line := TrimSpace(raw);
             !IsComment(line) && !HasPrefix(line, "location ") && HasPrefix(line, "fastcgi_pass ")
    ensures SearchStep(Looking(true, d), raw, needle) == Found(SocketAt(TrimSpace(raw)))
  {
  }

  lemma PassLine(l: Line)
    requires l.Stmt? && l.word == FastcgiPass && Tidy(l.rest)
    ensures var line := TrimSpace(TextOf(l));
            && line == "fastcgi_pass" + (" " + l.rest)
            && !IsComment(line) && !HasPrefix(line, "location ") && HasPrefix(line, "fastcgi_pass ")
  {
    StmtTrimmed(l);
    LineStarts(l, Location);
    LineStarts(l, FastcgiPass);
    WordTexts();
    Respaced(Spell(FastcgiPass), l.rest);
  }

  lemma Respaced(w: string, rest: string)
    ensures w + " " + rest == w + (" " + rest)
  {
  }

  lemma WordTexts()
    ensures Spell(Location) + " " == "location " && Spell(FastcgiPass) + " " == "fastcgi_pass "
    ensures Spell(FastcgiPass) == "fastcgi_pass"
  {
  }

  lemma StepAtPass(l: Line, socket: string, needle: string)
    requires l.Stmt? && l.word == FastcgiPass && Tidy(l.rest) && l.rest == "unix:" + socket + ";"
    requires Trimmed(socket) && '#' !in socket
    ensures SearchStep(Looking(true, 1), TextOf(l), needle) == Found(socket)
  {
    PassLine(l);
    SocketOfLine(socket);
    PassIsFound(TextOf(l), 1, needle);
    Spaced("unix:" + socket);
  }

  lemma Spaced(v: string)
    ensures " " + v + ";" == " " + (v + ";")
  {
  }

  lemma SocketOfLine(socket: string)
    requires Trimmed(socket) && '#' !in socket
    ensures var line := "fastcgi_pass" + (" " + ("unix:" + socket) + ";");
            HasPrefix(line, "fastcgi_pass ") && SocketAt(line) == socket
  {
    var v := "unix:" + socket;
    var line := "fastcgi_pass" + (" " + v + ";");
    assert line[..|"fastcgi_pass "|] == "fastcgi_pass ";
    assert line[|"fastcgi_pass"|..] == " " + v + ";";
    assert v[0] == 'u' && Trimmed(v) && v[..5] == "unix:";
    ValueReadsBack(v);
    TrimSpaceTrimmed(v);
    assert v[5..] == socket;
  }

  /** A location with its three FastCGI statements, found by the needle. */
  lemma SocketFound(loc: Line, a: Line, b: Line, pass: Line, rest: seq<Line>, d: int, socket: string, needle: string)
    requires Clean(loc) && loc.Stmt? && loc.word == Location && Contains("location " + loc.rest, needle)
    requires Clean(a) && a.Stmt? && a.word != Location && a.word != FastcgiPass
    requires Clean(b) && b.Stmt? && b.word != Location && b.word != FastcgiPass
    requires Clean(pass) && pass.Stmt? && pass.word == FastcgiPass && pass.rest == "unix:" + socket + ";"
    requires Trimmed(socket) && '#' !in socket
    ensures Searched(Looking(false, d), Texts([loc, a, b, pass] + rest), needle) == Found(socket)
  {
    StepIntoTarget(loc, d, needle);
    StepInTarget(a, needle);
    StepInTarget(b, needle);
    StepAtPass(pass, socket, needle);
    FourSteps([loc, a, b, pass] + rest, Looking(false, d), needle);
    FoundStays(Found(socket), Texts(rest), needle);
    assert ([loc, a, b, pass] + rest)[4..] == rest;
  }

  lemma FourSteps(ls: seq<Line>, st: Search, needle: string)
    requires |ls| >= 4
    ensures var s1 := SearchStep(st, TextOf(ls[0]), needle);
            var s2 := SearchStep(s1, TextOf(ls[1]), needle);
            var s3 := SearchStep(s2, TextOf(ls[2]), needle);
            var s4 := SearchStep(s3, TextOf(ls[3]), needle);
            Searched(st, Texts(ls), needle) == Searched(s4, Texts(ls[4..]), needle)
  {
    var s1 := SearchStep(st, TextOf(ls[0]), needle);
    var s2 := SearchStep(s1, TextOf(ls[1]), needle);
    var s3 := SearchStep(s2, TextOf(ls[2]), needle);
    var s4 := SearchStep(s3, TextOf(ls[3]), needle);
    OneStep(ls, st, needle);
    OneStep(ls[1..], s1, needle);
    OneStep(ls[1..][1..], s2, needle);
    OneStep(ls[1..][1..][1..], s3, needle);
    assert ls[1..][1..][1..][1..] == ls[4..];
  }

  lemma OneStep(ls: seq<Line>, st: Search, needle: string)
    requires ls != []
    ensures Searched(st, Texts(ls), needle) == Searched(SearchStep(st, TextOf(ls[0]), needle), Texts(ls[1..]), needle)
  {
    assert Texts(ls)[1..] == Texts(ls[1..]);
  }
}
