/** `strconv.Quote` and its rough inverse: the importer only trims the quotation marks. */
module NginxQuoting {
  import opened Text

  /** `strconv.IsPrint`, for Latin-1 characters. */
  predicate IsPrint(c: char) {
    ' ' <= c <= '~' || ('\U{A1}' <= c && c != '\U{AD}')
  }

  function HexDigit(n: nat): char
    requires n < 16
  {
    if n < 10 then '0' + n as char else 'a' + (n - 10) as char
  }

  function Hex(n: nat): string
    requires n < 256
  {
    [HexDigit(n / 16), HexDigit(n % 16)]
  }

  /** How a Latin-1 character that is not printable is written. */
  function Escape(c: char): string
    requires !IsPrint(c)
  {
    var n := c as int;
    if n == 7 then "\\a" else if n == 8 then "\\b" else if n == 12 then "\\f" else if n == 10 then "\\n"
    else if n == 13 then "\\r" else if n == 9 then "\\t" else if n == 11 then "\\v"
    else if n < 0x20 || n == 0x7f then "\\x" + Hex(n) else "\\u00" + Hex(n)
  }

  predicate Escaped(c: char) {
    c == '"' || c == '\\' || !IsPrint(c)
  }

  function QuotedChar(c: char): string {
    if c == '"' || c == '\\' then ['\\', c] else if IsPrint(c) then [c] else Escape(c)
  }

  function Body(s: string, quoted: char -> string): string {
    if s == [] then [] else quoted(s[0]) + Body(s[1..], quoted)
  }

  /** `strconv.Quote`, for Latin-1 text. */
  function Quote(s: string): string {
    "\"" + Body(s, QuotedChar) + "\""
  }

  function TrimQuotesLeft(s: string): string {
    if s != [] && s[0] == '"' then TrimQuotesLeft(s[1..]) else s
  }

  function TrimQuotesRight(s: string): string {
    if s != [] && s[|s| - 1] == '"' then TrimQuotesRight(s[..|s| - 1]) else s
  }

  /** `strings.Trim(s, "\"")` */
  function TrimQuotes(s: string): string {
    TrimQuotesRight(TrimQuotesLeft(s))
  }

  /** What is read back of a quoted value. */
  function Requoted(v: string): string {
    TrimQuotes(Quote(v))
  }

  predicate Latin1(s: string) {
    forall i :: 0 <= i < |s| ==> s[i] < '\U{100}'
  }

  /** No character of the value is escaped. */
  predicate Unescaped(v: string) {
    forall i :: 0 <= i < |v| ==> !Escaped(v[i])
  }

  // ---------- One character

  /** A printable character stands for itself; an escape starts in a backslash and ends in
      another character, a quotation mark only for the quotation mark. */
  predicate Shaped(c: char, q: string) {
    if !Escaped(c) then q == [c]
    else |q| >= 2 && q[0] == '\\' && !IsSpace(q[|q| - 1]) && if c == '"' then q == ['\\', '"'] else q[|q| - 1] != '"'
  }

  ghost predicate Quotes(quoted: char -> string) {
    forall c :: Shaped(c, quoted(c))
  }

  lemma HexShape(n: nat)
    requires n < 16
    ensures '0' <= HexDigit(n) <= 'f' && HexDigit(n) != '"' && !IsSpace(HexDigit(n))
  {
  }

  lemma EscapeShape(c: char)
    requires !IsPrint(c)
    ensures var q := Escape(c); |q| >= 2 && q[0] == '\\' && q[|q| - 1] != '"' && !IsSpace(q[|q| - 1])
  {
    var n := c as int;
    if !(7 <= n <= 13) {
      HexShape(n % 16);
    }
  }

  lemma QuotedCharQuotes()
    ensures Quotes(QuotedChar)
  {
    forall c: char ensures Shaped(c, QuotedChar(c)) {
      if !IsPrint(c) {
        EscapeShape(c);
      }
    }
  }

  // ---------- Bodies

  lemma {:induction false} BodyConcat(a: string, b: string, quoted: char -> string)
    ensures Body(a + b, quoted) == Body(a, quoted) + Body(b, quoted)
  {
    if a == [] {
      assert a + b == b;
    } else {
      assert (a + b)[0] == a[0] && (a + b)[1..] == a[1..] + b;
      BodyConcat(a[1..], b, quoted);
    }
  }

  lemma BodyOne(c: char, quoted: char -> string)
    ensures Body([c], quoted) == quoted(c)
  {
    assert Body([c][1..], quoted) == [];
  }

  /** Quoting never shortens, and keeps the length of unescaped text only. */
  lemma {:induction false} BodyLength(v: string, quoted: char -> string)
    requires Quotes(quoted)
    ensures |Body(v, quoted)| >= |v|
    ensures Unescaped(v) ==> Body(v, quoted) == v
    ensures !Unescaped(v) ==> |Body(v, quoted)| > |v|
  {
    if v != [] {
      assert Shaped(v[0], quoted(v[0]));
      BodyLength(v[1..], quoted);
      assert v == [v[0]] + v[1..];
      if Unescaped(v[1..]) && !Escaped(v[0]) {
        assert forall i :: 0 < i < |v| ==> v[i] == v[1..][i - 1];
      }
    }
  }

  /** The first character of a body, and its last two. */
  lemma BodyEnds(v: string, quoted: char -> string)
    requires v != "" && Quotes(quoted)
    ensures var q, last := Body(v, quoted), v[|v| - 1];
            && q != "" && q[0] == (if Escaped(v[0]) then '\\' else v[0])
            && (if last == '"' then |q| >= 2 && q[|q| - 2] == '\\' && q[|q| - 1] == '"' else q[|q| - 1] != '"')
            && (!Escaped(last) ==> q[|q| - 1] == last) && (Escaped(last) ==> !IsSpace(q[|q| - 1]))
  {
    var w, last := v[..|v| - 1], v[|v| - 1];
    assert Shaped(v[0], quoted(v[0])) && Shaped(last, quoted(last));
    assert v == w + [last];
    BodyConcat(w, [last], quoted);
    BodyOne(last, quoted);
  }

  lemma TrimmedOnce(q: string)
    requires q != ""
    ensures TrimQuotesRight(q + "\"") == TrimQuotesRight(q) && (q[|q| - 1] != '"' ==> TrimQuotesRight(q) == q)
  {
    var t := q + "\"";
    assert t[|t| - 1] == '"' && t[..|t| - 1] == q;
  }

  lemma QuotesTrimmed(q: string)
    requires q != "" && q[0] != '"'
    ensures q[|q| - 1] != '"' ==> TrimQuotes("\"" + q + "\"") == q
    ensures q[|q| - 1] == '"' && q[|q| - 2] != '"' ==> TrimQuotes("\"" + q + "\"") == q[..|q| - 1]
  {
    var t := q + "\"";
    assert "\"" + q + "\"" == "\"" + t && ("\"" + t)[1..] == t;
    assert TrimQuotesLeft("\"" + t) == TrimQuotesLeft(t) == t;
    TrimmedOnce(q);
    if q[|q| - 1] == '"' && q[|q| - 2] != '"' {
      var p := q[..|q| - 1];
      TrimmedOnce(p);
      assert q == p + "\"";
    }
  }

  /** The value read back is the escaped text, short of a quotation mark at its end. */
  lemma ReadBackIs(v: string, quoted: char -> string)
    requires v != "" && Quotes(quoted)
    ensures var q := Body(v, quoted);
            TrimQuotes("\"" + q + "\"") == if v[|v| - 1] == '"' then q[..|q| - 1] else q
  {
    BodyEnds(v, quoted);
    QuotesTrimmed(Body(v, quoted));
  }

  lemma RequotedIs(v: string)
    requires v != ""
    ensures var q := Body(v, QuotedChar); Requoted(v) == if v[|v| - 1] == '"' then q[..|q| - 1] else q
  {
    QuotedCharQuotes();
    ReadBackIs(v, QuotedChar);
  }

  lemma BodyTrimmed(v: string, quoted: char -> string)
    requires v != "" && Trimmed(v) && Quotes(quoted)
    ensures var q := Body(v, quoted); var r := if v[|v| - 1] == '"' then q[..|q| - 1] else q; r != "" && Trimmed(r)
  {
    BodyEnds(v, quoted);
  }

  lemma RequotedTrimmed(v: string)
    requires v != "" && Trimmed(v)
    ensures Requoted(v) != "" && Trimmed(Requoted(v))
  {
    QuotedCharQuotes();
    RequotedIs(v);
    BodyTrimmed(v, QuotedChar);
  }

  // ---------- Quoting again

  /** An escape brings a backslash, which is escaped again. */
  lemma {:induction false} EscapesRemain(v: string, quoted: char -> string) returns (i: nat)
    requires !Unescaped(v) && Quotes(quoted)
    ensures i < |Body(v, quoted)| - 1 && Body(v, quoted)[i] == '\\'
  {
    assert Shaped(v[0], quoted(v[0]));
    if Escaped(v[0]) {
      i := 0;
    } else {
      var k :| 0 <= k < |v| && Escaped(v[k]);
      assert v[1..][k - 1] == v[k];
      var rest := EscapesRemain(v[1..], quoted);
      i := rest + 1;
    }
  }

  /** What was read back holds a backslash, or it lost the quotation mark at its end. */
  lemma EscapedAgain(v: string, quoted: char -> string, r: string)
    requires !Unescaped(v) && Quotes(quoted)
    requires var q := Body(v, quoted); r == if v[|v| - 1] == '"' then q[..|q| - 1] else q
    ensures !Unescaped(r) && |r| >= |Body(v, quoted)| - 1
    ensures v[|v| - 1] != '"' ==> |r| == |Body(v, quoted)|
  {
    var i := EscapesRemain(v, quoted);
    assert r[i] == '\\';
  }

  lemma LostMark(v: string, quoted: char -> string, r: string)
    requires v != "" && v[|v| - 1] == '"' && Quotes(quoted)
    requires var q := Body(v, quoted); r == q[..|q| - 1]
    ensures Body(r, quoted) != Body(v, quoted)
  {
    BodyEnds(v, quoted);
    BodyEnds(r, quoted);
  }

  lemma BodyAgain(v: string, quoted: char -> string, r: string)
    requires v != "" && Quotes(quoted)
    requires var q := Body(v, quoted); r == if v[|v| - 1] == '"' then q[..|q| - 1] else q
    ensures |Body(r, quoted)| >= |Body(v, quoted)|
    ensures Body(r, quoted) == Body(v, quoted) <==> Unescaped(v)
    ensures Unescaped(v) ==> r == v
  {
    BodyLength(v, quoted);
    BodyLength(r, quoted);
    if !Unescaped(v) {
      EscapedAgain(v, quoted, r);
      if v[|v| - 1] == '"' {
        LostMark(v, quoted, r);
      }
    }
  }

  /** Quoting what was read back gives the same text exactly when nothing was escaped. */
  lemma QuoteAgain(v: string)
    requires v != ""
    ensures |Quote(Requoted(v))| >= |Quote(v)|
    ensures Quote(Requoted(v)) == Quote(v) <==> Unescaped(v)
    ensures Unescaped(v) ==> Requoted(v) == v
  {
    QuotedCharQuotes();
    RequotedIs(v);
    BodyAgain(v, QuotedChar, Requoted(v));
    var a, b := Body(v, QuotedChar), Body(Requoted(v), QuotedChar);
    assert Quote(v)[1..|a| + 1] == a && Quote(Requoted(v))[1..|b| + 1] == b;
  }

  lemma NoBreakSpace()
    ensures QuotedChar('\U{A0}') == "\\u00a0"
  {
    assert 0xa0 / 16 == 10 && 0xa0 % 16 == 0;
    assert HexDigit(10) == 'a' && HexDigit(0) == '0';
  }

  lemma BodyAround(c: char, a: string, b: string, quoted: char -> string)
    requires Unescaped(a) && Unescaped(b) && Quotes(quoted)
    ensures Body(a + [c] + b, quoted) == a + quoted(c) + b
  {
    BodyLength(a, quoted);
    BodyLength(b, quoted);
    BodyOne(c, quoted);
    BodyConcat(a, [c], quoted);
    BodyConcat(a + [c], b, quoted);
  }

  lemma EscapeIsQuoted(a: string, b: string)
    requires Unescaped(a) && Unescaped(b)
    ensures Body(a + "\\u00a0" + b, QuotedChar) == a + "\\\\u00a0" + b
  {
    QuotedCharQuotes();
    var c := "u00a0" + b;
    assert a + "\\u00a0" + b == a + ['\\'] + c;
    BodyAround('\\', a, c, QuotedChar);
  }

  /** A no-break space inside a value is read back as its escape, whose backslash is escaped the
      next time. */
  lemma NoBreakSpaceIsRead(a: string, b: string)
    requires Unescaped(a) && Unescaped(b) && b != ""
    ensures Requoted(a + ['\U{A0}'] + b) == a + "\\u00a0" + b && !Unescaped(a + ['\U{A0}'] + b)
    ensures Quote(a + "\\u00a0" + b) == "\"" + (a + "\\\\u00a0" + b) + "\""
  {
    NoBreakSpace();
    QuotedCharQuotes();
    BodyAround('\U{A0}', a, b, QuotedChar);
    RequotedIs(a + ['\U{A0}'] + b);
    assert (a + ['\U{A0}'] + b)[|a|] == '\U{A0}';
    EscapeIsQuoted(a, b);
  }
}
