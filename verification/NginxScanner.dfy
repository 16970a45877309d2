/** The scanner that cuts an nginx configuration into its `server` blocks. */
module NginxScanner {
  import opened Text

  predicate IsGap(c: char) {
    c == ' ' || c == '\t' || c == '\r' || c == '\n'
  }

  /** Length of the run of gaps at the start. */
  function Gap(s: string): (n: nat)
    ensures n <= |s| && (n < |s| ==> !IsGap(s[n])) && forall i :: 0 <= i < n ==> IsGap(s[i])
  {
    if s == [] || !IsGap(s[0]) then 0 else 1 + Gap(s[1..])
  }

  /** Length of the comment at the start, without its line break. */
  function Comment(s: string): (n: nat)
    requires s != []
    ensures 1 <= n <= |s| && (n < |s| ==> s[n] == '\n') && forall i :: 1 <= i < n ==> s[i] != '\n'
  {
    if |s| == 1 || s[1] == '\n' then 1
    else
      var n := Comment(s[1..]);
      assert n < |s[1..]| ==> s[1..][n] == s[n + 1];
      assert forall i :: 2 <= i < n + 1 ==> s[i] == s[1..][i - 1];
      1 + n
  }

  /** Length of `server`, gaps and `{` at the start; 0 if they are not there. */
  function Opening(s: string): (n: nat)
    ensures n <= |s|
  {
    if !HasPrefix(s, "server") then 0
    else
      var j := 6 + Gap(s[6..]);
      if j < |s| && s[j] == '{' then j + 1 else 0
  }

  /** A block opens with `server`, any blanks and line breaks, and a brace, and with nothing else. */
  lemma OpeningIs(s: string, n: nat)
    ensures Opening(s) == n > 0
            <==> 6 < n <= |s| && "server" <= s && s[n - 1] == '{' && forall i :: 6 <= i < n - 1 ==> s[i] in " \t\r\n"
  {
    if HasPrefix(s, "server") {
      var t, g := s[6..], Gap(s[6..]);
      assert forall i :: 6 <= i < |s| ==> s[i] == t[i - 6];
      GapChars();
      if 6 < n <= |s| && s[n - 1] == '{' && forall i :: 6 <= i < n - 1 ==> s[i] in " \t\r\n" {
        GapEnds(t, n - 7);
      }
    }
  }

  lemma GapChars()
    ensures forall c :: IsGap(c) <==> c in " \t\r\n"
  {
    var s := " \t\r\n";
    assert s[0] == ' ' && s[1] == '\t' && s[2] == '\r' && s[3] == '\n';
  }

  lemma GapEnds(t: string, k: nat)
    requires k < |t| && !IsGap(t[k]) && forall i :: 0 <= i < k ==> IsGap(t[i])
    ensures Gap(t) == k
  {
    assert Gap(t) >= k;
  }

  /** The blocks of `rest`; inside a block (`depth` > 0) `open` is its text so far. */
  function Blocks(rest: string, open: string, depth: nat): seq<string>
    decreases |rest|
  {
    if rest == [] then []
    else if rest[0] == '#' then
      var n := Comment(rest);
      Blocks(rest[n..], if depth == 0 then "" else open + rest[..n], depth)
    else if depth == 0 then
      var n := Opening(rest);
      if n > 0 then Blocks(rest[n..], rest[..n], 1) else Blocks(rest[1..], "", 0)
    else
      var text := open + [rest[0]];
      if rest[0] == '{' then Blocks(rest[1..], text, depth + 1)
      else if rest[0] != '}' then Blocks(rest[1..], text, depth)
      else if depth == 1 then [TrimSpace(text)] + Blocks(rest[1..], "", 0)
      else Blocks(rest[1..], text, depth - 1)
  }

  /** The text between the start of the block being read and position `i`. */
  function Open(raw: string, start: int, i: nat): string
    requires i <= |raw| && -1 <= start <= i
  {
    if start == -1 then "" else raw[start..i]
  }

  /** The inner loop over a comment: the position of its last character. */
  method SkipComment(raw: string, from: nat) returns (i: nat)
    requires from < |raw|
    ensures i + 1 == from + Comment(raw[from..])
  {
    ghost var rest := raw[from..];
    i := from;
    while i + 1 < |raw| && raw[i + 1] != '\n'
      invariant from <= i < |raw| && i - from < Comment(rest)
    {
      assert rest[i + 1 - from] == raw[i + 1];
      i := i + 1;
    }
    assert i + 1 < |raw| ==> rest[i + 1 - from] == raw[i + 1];
  }

  /** The inner loop over gaps: the position of the `{` of an opening, or none. */
  method FindOpening(raw: string, i: nat) returns (brace: Option<nat>)
    requires i < |raw|
    ensures brace == if Opening(raw[i..]) > 0 then Some(i + Opening(raw[i..]) - 1) else None
  {
    if !HasPrefix(raw[i..], "server") {
      return None;
    }
    ghost var gap := Gap(raw[i..][6..]);
    var j := i + 6;
    while j < |raw| && IsGap(raw[j])
      invariant i + 6 <= j <= |raw| && j - i - 6 <= gap
    {
      assert raw[i..][6..][j - i - 6] == raw[j];
      j := j + 1;
    }
    assert j < |raw| ==> raw[i..][6..][j - i - 6] == raw[j];
    assert j - i - 6 == gap && (j < |raw| ==> raw[i..][6 + gap] == raw[j]);
    brace := if j < |raw| && raw[j] == '{' then Some(j) else None;
  }

  /** Where the scanner stands: position, start of the open block or -1, and depth. */
  function Ahead(raw: string, i: int, start: int, depth: int): seq<string>
    requires -1 <= start <= i <= |raw| && 0 <= i && depth >= 0
  {
    Blocks(raw[i..], Open(raw, start, i), depth)
  }

  lemma AfterComment(raw: string, i: nat, start: int, depth: nat)
    requires i < |raw| && -1 <= start <= i && (start == -1 <==> depth == 0) && raw[i] == '#'
    ensures i + Comment(raw[i..]) <= |raw|
    ensures Ahead(raw, i, start, depth) == Ahead(raw, i + Comment(raw[i..]), start, depth)
  {
    var n := Comment(raw[i..]);
    assert raw[i..][n..] == raw[i + n..];
    assert start >= 0 ==> raw[start..i] + raw[i..][..n] == raw[start..i + n];
  }

  lemma AfterOpening(raw: string, i: nat)
    requires i < |raw| && raw[i] != '#'
    ensures var n := Opening(raw[i..]);
            && i + n <= |raw| && (raw[i] != 's' ==> n == 0)
            && Ahead(raw, i, -1, 0) == if n > 0 then Ahead(raw, i + n, i, 1) else Ahead(raw, i + 1, -1, 0)
  {
    var n := Opening(raw[i..]);
    assert raw[i..][n..] == raw[i + n..] && raw[i..][..n] == raw[i..i + n];
    assert raw[i..][1..] == raw[i + 1..];
  }

  lemma AfterInside(raw: string, i: nat, start: nat, depth: nat)
    requires start <= i < |raw| && raw[i] != '#' && depth > 0
    ensures Ahead(raw, i, start, depth)
            == if raw[i] == '{' then Ahead(raw, i + 1, start, depth + 1)
               else if raw[i] != '}' then Ahead(raw, i + 1, start, depth)
               else if depth == 1 then [TrimSpace(raw[start..i + 1])] + Ahead(raw, i + 1, -1, 0)
               else Ahead(raw, i + 1, start, depth - 1)
  {
    assert raw[i..][1..] == raw[i + 1..] && raw[start..i] + [raw[i]] == raw[start..i + 1];
  }

  /** A character inside a block. */
  method TurnInside(raw: string, i: nat, from: nat, level: nat) returns (closed: seq<string>, start: int, depth: nat)
    requires from <= i < |raw| && raw[i] != '#' && level > 0
    ensures -1 <= start <= i + 1 && (start == -1 <==> depth == 0)
    ensures closed + Ahead(raw, i + 1, start, depth) == Ahead(raw, i, from, level)
  {
    closed, start, depth := [], from, level;
    AfterInside(raw, i, start, depth);
    if raw[i] == '{' {
      depth := depth + 1;
    } else if raw[i] == '}' {
      depth := depth - 1;
      if depth == 0 {
        closed := [TrimSpace(raw[start..i + 1])];
        start := -1;
      }
    }
  }

  /** One turn of the scan: the position to go on from, and the block just closed. */
  method Turn(raw: string, at: nat, from: int, level: nat)
    returns (closed: seq<string>, i: nat, start: int, depth: nat)
    requires at < |raw| && -1 <= from <= at && (from == -1 <==> level == 0)
    ensures at < i <= |raw| && -1 <= start <= i && (start == -1 <==> depth == 0)
    ensures closed + Ahead(raw, i, start, depth) == Ahead(raw, at, from, level)
  {
    closed, i, start, depth := [], at, from, level;
    if raw[i] == '#' {
      AfterComment(raw, i, start, depth);
      i := SkipComment(raw, i);
    } else if start == -1 {
      AfterOpening(raw, i);
      if raw[i] == 's' {
        var brace := FindOpening(raw, i);
        if brace.Some? {
          start, depth, i := i, 1, brace.value;
        }
      }
    } else {
      closed, start, depth := TurnInside(raw, i, start, depth);
    }
    i := i + 1;
  }

  /** `splitServerBlocks`; the depth never falls below 0. */
  method SplitServerBlocks(raw: string) returns (blocks: seq<string>)
    ensures blocks == Blocks(raw, "", 0)
  {
    blocks := [];
    var start, depth, i := -1, 0, 0;
    assert raw[0..] == raw;
    ghost var all := Ahead(raw, 0, -1, 0);
    while i < |raw|
      invariant 0 <= i <= |raw| && -1 <= start <= i && depth >= 0 && (start == -1 <==> depth == 0)
      invariant blocks + Ahead(raw, i, start, depth) == all
    {
      var closed;
      ghost var before := Ahead(raw, i, start, depth);
      closed, i, start, depth := Turn(raw, i, start, depth);
      assert blocks + (closed + Ahead(raw, i, start, depth)) == blocks + before;
      blocks := blocks + closed;
    }
  }

  // ---------- What a block is

  /** Depth after reading `s` from depth `d`; none if a comment starts or the block closes. */
  function Depth(s: string, d: nat): Option<nat> {
    if s == [] then Some(d)
    else if s[0] == '#' then None
    else if s[0] == '{' then Depth(s[1..], d + 1)
    else if s[0] == '}' then (if d <= 1 then None else Depth(s[1..], d - 1))
    else Depth(s[1..], d)
  }

  lemma {:induction false} DepthConcat(a: string, b: string, d: nat)
    requires Depth(a, d).Some?
    ensures Depth(a + b, d) == Depth(b, Depth(a, d).value)
  {
    if a == [] {
      assert a + b == b;
    } else {
      assert (a + b)[0] == a[0] && (a + b)[1..] == a[1..] + b;
      DepthConcat(a[1..], b, if a[0] == '{' then d + 1 else if a[0] == '}' then d - 1 else d);
    }
  }

  /** Inside a block, text that does not close it is collected. */
  lemma {:induction false} BodyIsCollected(body: string, rest: string, open: string, d: nat)
    requires d > 0 && Depth(body, d).Some?
    ensures Depth(body, d).value > 0
    ensures Blocks(body + rest, open, d) == Blocks(rest, open + body, Depth(body, d).value)
    decreases |body|
  {
    if body == [] {
      assert body + rest == rest && open + body == open;
    } else {
      assert (body + rest)[0] == body[0] && (body + rest)[1..] == body[1..] + rest;
      BodyIsCollected(body[1..], rest, open + [body[0]],
                      if body[0] == '{' then d + 1 else if body[0] == '}' then d - 1 else d);
      assert open + [body[0]] + body[1..] == open + body;
    }
  }

  const OPENING := "server {"

  /** `server {`, a body that stays open until its end, and `}`. */
  predicate IsBlock(b: string) {
    && |b| > |OPENING| && HasPrefix(b, OPENING) && b[|b| - 1] == '}'
    && Depth(b[|OPENING|..|b| - 1], 1) == Some(1)
  }

  lemma OpeningIsRead(rest: string)
    ensures Blocks(OPENING + rest, "", 0) == Blocks(rest, OPENING, 1)
  {
    var s := OPENING + rest;
    assert s[..6] == "server" && s[6] == ' ' && s[7] == '{';
    assert s[6..][0] == ' ' && s[6..][1] == '{';
    assert s[6..][1..][0] == '{';
    assert Gap(s[6..]) == 1 + Gap(s[6..][1..]) == 1;
    assert Opening(s) == 8;
    assert s[8..] == rest && s[..8] == OPENING;
  }

  lemma BlockIsRead(b: string, rest: string)
    requires IsBlock(b)
    ensures Blocks(b + rest, "", 0) == [b] + Blocks(rest, "", 0)
  {
    var body := b[|OPENING|..|b| - 1];
    assert b == OPENING + body + ['}'];
    assert b + rest == OPENING + (body + (['}'] + rest));
    OpeningIsRead(body + (['}'] + rest));
    BodyIsCollected(body, ['}'] + rest, OPENING, 1);
    assert (['}'] + rest)[1..] == rest;
    assert OPENING[0] == 's' && b[0] == 's';
    TrimSpaceTrimmed(b);
  }

  lemma {:induction false} GapIsSkipped(gap: string, rest: string)
    requires forall i :: 0 <= i < |gap| ==> IsGap(gap[i])
    ensures Blocks(gap + rest, "", 0) == Blocks(rest, "", 0)
  {
    if gap == [] {
      assert gap + rest == rest;
    } else {
      assert (gap + rest)[1..] == gap[1..] + rest;
      GapIsSkipped(gap[1..], rest);
    }
  }

  /** Each block and, before all but the first, an empty line. */
  function Listing(blocks: seq<string>): string {
    if blocks == [] then "" else if |blocks| == 1 then blocks[0] + "\n" else blocks[0] + "\n\n" + Listing(blocks[1..])
  }

  /** Blocks listed one after another are found again, each as it was. */
  lemma {:induction false} ListingIsSplit(blocks: seq<string>)
    requires forall i :: 0 <= i < |blocks| ==> IsBlock(blocks[i])
    ensures Blocks(Listing(blocks), "", 0) == blocks
  {
    if |blocks| == 1 {
      BlockIsRead(blocks[0], "\n");
      assert "\n" + "" == "\n";
      GapIsSkipped("\n", "");
    } else if blocks != [] {
      assert Listing(blocks) == blocks[0] + ("\n\n" + Listing(blocks[1..]));
      BlockIsRead(blocks[0], "\n\n" + Listing(blocks[1..]));
      GapIsSkipped("\n\n", Listing(blocks[1..]));
      ListingIsSplit(blocks[1..]);
    }
  }
}
