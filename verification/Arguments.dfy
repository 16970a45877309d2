/** The tokenizer for arguments typed into one field: blanks separate, quotes and backslashes
    protect. */
module Arguments {
  import opened Text

  datatype Scan = Scan(args: seq<string>, current: string, inSingle: bool, inDouble: bool, escaping: bool)

  const START := Scan([], "", false, false, false)

  predicate IsBlank(c: char) {
    c == ' ' || c == '\t' || c == '\n'
  }

  function Flushed(st: Scan): Scan {
    if st.current == "" then st else st.(args := st.args + [st.current], current := "")
  }

  function Step(st: Scan, c: char): Scan {
    if st.escaping then st.(current := st.current + [c], escaping := false)
    else if c == '\\' then st.(escaping := true)
    else if c == '\'' && !st.inDouble then st.(inSingle := !st.inSingle)
    else if c == '"' && !st.inSingle then st.(inDouble := !st.inDouble)
    else if IsBlank(c) && !st.inSingle && !st.inDouble then Flushed(st)
    else st.(current := st.current + [c])
  }

  function Scanned(st: Scan, s: string): Scan
    decreases |s|
  {
    if s == [] then st else Scanned(Step(st, s[0]), s[1..])
  }

  function Parsed(input: string): seq<string> {
    Flushed(Scanned(START, TrimSpace(input))).args
  }

  /** `parseArgs` */
  method ParseArgs(input: string) returns (args: seq<string>)
    ensures args == Parsed(input)
  {
    var text := TrimSpace(input);
    if text == "" {
      return [];
    }
    args := ScanArgs(text);
  }

  method ScanArgs(text: string) returns (args: seq<string>)
    ensures args == Flushed(Scanned(START, text)).args
  {
    args := [];
    var current, inSingle, inDouble, escaping := "", false, false, false;
    for i := 0 to |text|
      invariant Scanned(START, text) == Scanned(Scan(args, current, inSingle, inDouble, escaping), text[i..])
    {
      var r := text[i];
      if escaping {
        current := current + [r];
        escaping := false;
      } else if r == '\\' {
        escaping := true;
      } else if r == '\'' && !inDouble {
        inSingle := !inSingle;
      } else if r == '"' && !inSingle {
        inDouble := !inDouble;
      } else if r == ' ' || r == '\t' || r == '\n' {
        if inSingle || inDouble {
          current := current + [r];
        } else if |current| > 0 {
          args, current := args + [current], "";
        }
      } else {
        current := current + [r];
      }
    }
    if |current| > 0 {
      args := args + [current];
    }
  }

  // ---------- Plain text

  predicate Plain(s: string) {
    forall i :: 0 <= i < |s| ==> s[i] != '\\' && s[i] != '\'' && s[i] != '"'
  }

  lemma {:induction false} PlainIsFields(st: Scan, s: string)
    requires !st.escaping && !st.inSingle && !st.inDouble
    requires Plain(s)
    ensures Flushed(Scanned(st, s)).args == st.args + Fields(s, IsBlank, st.current)
    decreases |s|
  {
    if s != [] {
      PlainIsFields(Step(st, s[0]), s[1..]);
    }
  }

  /** Text without quotes and backslashes is split at its blanks. */
  lemma PlainTextIsSplit(input: string)
    requires Plain(TrimSpace(input))
    ensures Parsed(input) == Fields(TrimSpace(input), IsBlank, "")
  {
    PlainIsFields(START, TrimSpace(input));
  }

  // ---------- Round trip

  predicate NonEmpty(args: seq<string>) {
    forall i :: 0 <= i < |args| ==> args[i] != ""
  }

  function Escaped(arg: string): string {
    if arg == [] then [] else ['\\', arg[0]] + Escaped(arg[1..])
  }

  function EscapedAll(args: seq<string>): (r: seq<string>)
    ensures |r| == |args|
  {
    if args == [] then [] else [Escaped(args[0])] + EscapedAll(args[1..])
  }

  /** Every character behind a backslash, arguments separated by spaces. */
  function Quoted(args: seq<string>): string {
    Join(EscapedAll(args), " ")
  }

  lemma PairIsRead(st: Scan, c: char, rest: string)
    requires !st.escaping
    ensures Scanned(st, ['\\', c] + rest) == Scanned(st.(current := st.current + [c]), rest)
  {
    var text := ['\\', c] + rest;
    assert text[0] == '\\' && text[1..] == [c] + rest;
    assert ([c] + rest)[0] == c && ([c] + rest)[1..] == rest;
    var st' := st.(escaping := true);
    assert Scanned(st, text) == Scanned(st', [c] + rest);
  }

  lemma {:induction false} EscapedIsRead(st: Scan, arg: string, rest: string)
    requires !st.escaping
    ensures Scanned(st, Escaped(arg) + rest) == Scanned(st.(current := st.current + arg), rest)
    decreases |arg|
  {
    if arg == [] {
      assert Escaped(arg) + rest == rest && st.current + arg == st.current;
    } else {
      var tail := Escaped(arg[1..]) + rest;
      assert Escaped(arg) + rest == ['\\', arg[0]] + tail;
      PairIsRead(st, arg[0], tail);
      EscapedIsRead(st.(current := st.current + [arg[0]]), arg[1..], rest);
      assert st.current + [arg[0]] + arg[1..] == st.current + arg;
    }
  }

  /** All arguments but the last are read and flushed. */
  lemma {:induction false} FrontIsRead(st: Scan, front: seq<string>, last: string)
    requires !st.escaping && !st.inSingle && !st.inDouble && st.current == ""
    requires NonEmpty(front)
    ensures Scanned(st, Front(front) + last) == Scanned(st.(args := st.args + front), last)
    decreases |front|
  {
    if front == [] {
      assert Front(front) + last == last && st.args + front == st.args;
    } else {
      FrontSplit(front, last);
      ArgumentIsRead(st, front[0], Front(front[1..]) + last);
      FrontIsRead(st.(args := st.args + [front[0]]), front[1..], last);
      Appended(st.args, front[0], front[1..]);
      assert [front[0]] + front[1..] == front;
    }
  }

  lemma FrontSplit(front: seq<string>, last: string)
    requires front != []
    ensures Front(front) + last == Escaped(front[0]) + ([' '] + (Front(front[1..]) + last))
  {
  }

  lemma ArgumentIsRead(st: Scan, arg: string, rest: string)
    requires !st.escaping && !st.inSingle && !st.inDouble && st.current == "" && arg != ""
    ensures Scanned(st, Escaped(arg) + ([' '] + rest)) == Scanned(st.(args := st.args + [arg]), rest)
  {
    EscapedIsRead(st, arg, [' '] + rest);
    assert "" + arg == arg;
    BlankIsRead(st.(current := arg), rest);
  }

  lemma BlankIsRead(st: Scan, rest: string)
    requires !st.escaping && !st.inSingle && !st.inDouble
    ensures Scanned(st, [' '] + rest) == Scanned(Flushed(st), rest)
  {
    assert ([' '] + rest)[1..] == rest;
  }

  /** Escaped arguments, each followed by a space. */
  function Front(front: seq<string>): string {
    if front == [] then [] else Escaped(front[0]) + [' '] + Front(front[1..])
  }

  lemma {:induction false} QuotedIsFront(args: seq<string>)
    requires args != []
    ensures Quoted(args) == Front(args[..|args| - 1]) + Escaped(args[|args| - 1])
  {
    if |args| > 1 {
      QuotedIsFront(args[1..]);
      assert args[1..][..|args| - 2] == args[..|args| - 1][1..];
      assert EscapedAll(args)[1..] == EscapedAll(args[1..]);
    }
  }

  lemma {:induction false} EscapedConcat(a: string, b: string)
    ensures Escaped(a + b) == Escaped(a) + Escaped(b)
  {
    if a == [] {
      assert a + b == b;
    } else {
      assert (a + b)[0] == a[0] && (a + b)[1..] == a[1..] + b;
      EscapedConcat(a[1..], b);
    }
  }

  /** What is read when the text ends in the last argument's last character, and what when that
      one is cut off behind its backslash. */
  lemma QuotedReads(front: seq<string>, word: string, c: char)
    requires NonEmpty(front)
    ensures var head := Front(front) + Escaped(word) + ['\\'];
            && Flushed(Scanned(START, head + [c])).args == front + [word + [c]]
            && Flushed(Scanned(START, head)).args == front + if word == "" then [] else [word]
  {
    var head := Front(front) + Escaped(word) + ['\\'];
    var st := START.(args := front);
    assert [] + front == front && "" + word == word;
    assert head == Front(front) + (Escaped(word) + ['\\']);
    FrontIsRead(START, front, Escaped(word) + ['\\']);
    EscapedIsRead(st, word, ['\\']);
    assert Scanned(st.(current := word), ['\\']) == st.(current := word, escaping := true);
    assert head + [c] == Front(front) + (Escaped(word) + ['\\', c]);
    FrontIsRead(START, front, Escaped(word) + ['\\', c]);
    EscapedIsRead(st, word, ['\\', c]);
    assert ['\\', c][1..] == [c];
    assert Scanned(st.(current := word), ['\\', c]) == Scanned(st.(current := word, escaping := true), [c])
           == st.(current := word + [c]);
  }

  lemma {:induction false} NoEmptyArgument(st: Scan, s: string)
    requires NonEmpty(st.args)
    ensures NonEmpty(Flushed(Scanned(st, s)).args)
    decreases |s|
  {
    if s != [] {
      NoEmptyArgument(Step(st, s[0]), s[1..]);
    }
  }

  predicate SafeToQuote(args: seq<string>) {
    && NonEmpty(args)
    && (args != [] ==> args[|args| - 1] != "" && !IsSpace(args[|args| - 1][|args[|args| - 1]| - 1]))
  }

  lemma FrontStarts(front: seq<string>, word: string)
    requires NonEmpty(front)
    ensures var head := Front(front) + Escaped(word) + ['\\'];
            head[0] == '\\' && head[|head| - 1] == '\\'
  {
  }

  lemma QuotedText(front: seq<string>, word: string, c: char)
    ensures Quoted(front + [word + [c]]) == Front(front) + Escaped(word) + ['\\'] + [c]
  {
    var args := front + [word + [c]];
    QuotedIsFront(args);
    assert args[..|args| - 1] == front;
    EscapedConcat(word, [c]);
    assert Escaped([c]) == ['\\', c] + [] == ['\\'] + [c];
  }

  /** The last character is trimmed off if it is white space, its backslash kept. */
  lemma QuotedParses(front: seq<string>, word: string, c: char)
    requires NonEmpty(front)
    ensures Parsed(Quoted(front + [word + [c]]))
            == front + if !IsSpace(c) then [word + [c]] else if word == "" then [] else [word]
  {
    var head := Front(front) + Escaped(word) + ['\\'];
    QuotedText(front, word, c);
    QuotedReads(front, word, c);
    FrontStarts(front, word);
    TrimmedQuote(head, c);
  }

  lemma TrimmedQuote(head: string, c: char)
    requires head != [] && head[0] == '\\' && head[|head| - 1] == '\\'
    ensures TrimSpace(head + [c]) == if IsSpace(c) then head else head + [c]
  {
    if IsSpace(c) {
      TrimTail(head, c);
    } else {
      TrimSpaceTrimmed(head + [c]);
    }
  }

  /** Quoting is undone exactly for non-empty arguments of which the last does not end in white
      space. */
  lemma QuotingRoundTrip(args: seq<string>)
    ensures Parsed(Quoted(args)) == args <==> SafeToQuote(args)
  {
    if !NonEmpty(args) {
      NoEmptyArgument(START, TrimSpace(Quoted(args)));
    } else if args != [] {
      var front, last := args[..|args| - 1], args[|args| - 1];
      var word, c := last[..|last| - 1], last[|last| - 1];
      assert last == word + [c] && args == front + [word + [c]];
      QuotedParses(front, word, c);
      LastDiffers(front, word, c);
    }
  }

  lemma LastDiffers(front: seq<string>, word: string, c: char)
    ensures front + (if word == "" then [] else [word]) != front + [word + [c]]
  {
    assert (front + [word + [c]])[|front|] == word + [c];
    if word != "" {
      assert (front + [word])[|front|] == word;
    } else {
      assert |front + []| == |front|;
    }
  }

  // ---------- Quotes

  /** How a stretch of an argument is protected. */
  datatype Style = Bare | Single | Double

  datatype Piece = Piece(style: Style, text: string)

  /** What has a meaning of its own there, unless a backslash precedes it. */
  predicate Special(style: Style, c: char) {
    match style
    case Bare => c == '\\' || c == '\'' || c == '"' || c == ' ' || c == '\t' || c == '\n'
    case Single => c == '\\' || c == '\''
    case Double => c == '\\' || c == '"'
  }

  function Protected(style: Style, text: string): string {
    if text == [] then []
    else (if Special(style, text[0]) then ['\\', text[0]] else [text[0]]) + Protected(style, text[1..])
  }

  function Mark(style: Style): string {
    match style
    case Bare => ""
    case Single => "'"
    case Double => "\""
  }

  function PieceText(p: Piece): string {
    Mark(p.style) + Protected(p.style, p.text) + Mark(p.style)
  }

  function ArgText(arg: seq<Piece>): string {
    if arg == [] then "" else PieceText(arg[0]) + ArgText(arg[1..])
  }

  function ArgValue(arg: seq<Piece>): string {
    if arg == [] then "" else arg[0].text + ArgValue(arg[1..])
  }

  function Values(args: seq<seq<Piece>>): (r: seq<string>)
    ensures |r| == |args|
  {
    if args == [] then [] else [ArgValue(args[0])] + Values(args[1..])
  }

  function ArgsText(args: seq<seq<Piece>>): string {
    if args == [] then ""
    else if |args| == 1 then ArgText(args[0])
    else ArgText(args[0]) + " " + ArgsText(args[1..])
  }

  predicate Unprotected(st: Scan) {
    !st.escaping && !st.inSingle && !st.inDouble
  }

  lemma {:induction false} ProtectedIsRead(st: Scan, style: Style, text: string, rest: string)
    requires !st.escaping && st.inSingle == style.Single? && st.inDouble == style.Double?
    ensures Scanned(st, Protected(style, text) + rest) == Scanned(st.(current := st.current + text), rest)
    decreases |text|
  {
    if text == [] {
      assert Protected(style, text) + rest == rest && st.current + text == st.current;
    } else {
      var tail := Protected(style, text[1..]) + rest;
      var st' := st.(current := st.current + [text[0]]);
      if Special(style, text[0]) {
        assert Protected(style, text) + rest == ['\\', text[0]] + tail;
        PairIsRead(st, text[0], tail);
      } else {
        assert Protected(style, text) + rest == [text[0]] + tail;
        assert ([text[0]] + tail)[1..] == tail && Step(st, text[0]) == st';
      }
      ProtectedIsRead(st', style, text[1..], rest);
      assert st.current + [text[0]] + text[1..] == st.current + text;
    }
  }

  lemma MarkIsRead(st: Scan, style: Style, rest: string)
    requires !st.escaping
    requires if style.Single? then !st.inDouble else if style.Double? then !st.inSingle else true
    ensures Scanned(st, Mark(style) + rest)
            == Scanned(st.(inSingle := st.inSingle != style.Single?, inDouble := st.inDouble != style.Double?), rest)
  {
    if style.Bare? {
      assert Mark(style) + rest == rest;
    } else {
      assert (Mark(style) + rest)[0] == Mark(style)[0] && (Mark(style) + rest)[1..] == rest;
    }
  }

  lemma PieceIsRead(st: Scan, p: Piece, rest: string)
    requires Unprotected(st)
    ensures Scanned(st, PieceText(p) + rest) == Scanned(st.(current := st.current + p.text), rest)
  {
    var m := Mark(p.style);
    var inside := st.(inSingle := p.style.Single?, inDouble := p.style.Double?);
    assert PieceText(p) + rest == m + (Protected(p.style, p.text) + (m + rest));
    MarkIsRead(st, p.style, Protected(p.style, p.text) + (m + rest));
    ProtectedIsRead(inside, p.style, p.text, m + rest);
    MarkIsRead(inside.(current := st.current + p.text), p.style, rest);
  }

  lemma {:induction false} PiecesAreRead(st: Scan, arg: seq<Piece>, rest: string)
    requires Unprotected(st)
    ensures Scanned(st, ArgText(arg) + rest) == Scanned(st.(current := st.current + ArgValue(arg)), rest)
    decreases |arg|
  {
    if arg == [] {
      assert ArgText(arg) + rest == rest && st.current + "" == st.current;
    } else {
      assert ArgText(arg) + rest == PieceText(arg[0]) + (ArgText(arg[1..]) + rest);
      PieceIsRead(st, arg[0], ArgText(arg[1..]) + rest);
      PiecesAreRead(st.(current := st.current + arg[0].text), arg[1..], rest);
      assert st.current + arg[0].text + ArgValue(arg[1..]) == st.current + ArgValue(arg);
    }
  }

  lemma FirstArgIsRead(st: Scan, arg: seq<Piece>, rest: string)
    requires Unprotected(st) && st.current == "" && ArgValue(arg) != ""
    ensures Scanned(st, ArgText(arg) + ([' '] + rest)) == Scanned(st.(args := st.args + [ArgValue(arg)]), rest)
  {
    PiecesAreRead(st, arg, [' '] + rest);
    WordIsFlushed(st, ArgValue(arg), rest);
  }

  lemma WordIsFlushed(st: Scan, word: string, rest: string)
    requires Unprotected(st) && st.current == "" && word != ""
    ensures Scanned(st.(current := st.current + word), [' '] + rest) == Scanned(st.(args := st.args + [word]), rest)
  {
    assert "" + word == word;
    BlankIsRead(st.(current := word), rest);
  }

  lemma Spaced(text: string, rest: string)
    ensures text + " " + rest == text + ([' '] + rest)
  {
  }

  lemma LastArgIsRead(st: Scan, arg: seq<Piece>)
    requires Unprotected(st) && st.current == "" && ArgValue(arg) != ""
    ensures Flushed(Scanned(st, ArgText(arg))).args == st.args + [ArgValue(arg)]
  {
    PiecesAreRead(st, arg, "");
    assert ArgText(arg) + "" == ArgText(arg) && "" + ArgValue(arg) == ArgValue(arg);
  }

  lemma ValuesSplit(args: seq<seq<Piece>>)
    requires args != [] && NonEmpty(Values(args))
    ensures Values(args) == [ArgValue(args[0])] + Values(args[1..])
    ensures ArgValue(args[0]) != "" && NonEmpty(Values(args[1..]))
  {
    assert Values(args)[0] == ArgValue(args[0]);
    forall i | 0 <= i < |args[1..]| ensures Values(args[1..])[i] != "" {
      assert Values(args[1..])[i] == Values(args)[i + 1];
    }
  }

  lemma {:induction false} ArgsAreRead(st: Scan, args: seq<seq<Piece>>)
    requires Unprotected(st) && st.current == "" && NonEmpty(Values(args))
    ensures Flushed(Scanned(st, ArgsText(args))).args == st.args + Values(args)
    decreases |args|
  {
    if args == [] {
      assert st.args + [] == st.args;
    } else {
      ValuesSplit(args);
      if |args| == 1 {
        LastArgIsRead(st, args[0]);
      } else {
        Spaced(ArgText(args[0]), ArgsText(args[1..]));
        FirstArgIsRead(st, args[0], ArgsText(args[1..]));
        ArgsAreRead(st.(args := st.args + [ArgValue(args[0])]), args[1..]);
        Appended(st.args, ArgValue(args[0]), Values(args[1..]));
      }
    }
  }

  lemma Appended(a: seq<string>, x: string, b: seq<string>)
    ensures (a + [x]) + b == a + ([x] + b)
  {
  }

  /** Arguments written in pieces, each bare or in quotes of either kind, with backslashes before what
      has a meaning there, are read back: quotes protect blanks and the other quotes, and join with
      what stands next to them. */
  lemma PiecesRoundTrip(args: seq<seq<Piece>>)
    requires NonEmpty(Values(args)) && Trimmed(ArgsText(args))
    ensures Parsed(ArgsText(args)) == Values(args)
  {
    TrimSpaceTrimmed(ArgsText(args));
    ArgsAreRead(START, args);
  }
}
