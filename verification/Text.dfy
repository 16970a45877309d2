/** Strings as the Go standard library sees them. A `char` is one Unicode code point; case
    mapping is the ASCII one (see README, "Left out"). */
module Text {

  datatype Option<+T> = None | Some(value: T)

  datatype Result<+T> = Ok(value: T) | Err(error: string)

  /** White space in the sense of Go's `unicode.IsSpace`. */
  predicate IsSpace(c: char) {
    || c == ' ' || '\t' <= c <= '\r' || c == '\U{85}' || c == '\U{A0}' || c == '\U{1680}'
    || '\U{2000}' <= c <= '\U{200A}' || c == '\U{2028}' || c == '\U{2029}' || c == '\U{202F}'
    || c == '\U{205F}' || c == '\U{3000}'
  }

  function TrimLeft(s: string): string {
    if s != [] && IsSpace(s[0]) then TrimLeft(s[1..]) else s
  }

  function TrimRight(s: string): string {
    if s != [] && IsSpace(s[|s| - 1]) then TrimRight(s[..|s| - 1]) else s
  }

  function TrimSpace(s: string): string {
    TrimRight(TrimLeft(s))
  }

  /** Neither end is white space. */
  predicate Trimmed(s: string) {
    s == [] || (!IsSpace(s[0]) && !IsSpace(s[|s| - 1]))
  }

  lemma {:induction false} TrimLeftStart(s: string)
    ensures TrimLeft(s) == [] || !IsSpace(TrimLeft(s)[0])
  {
    if s != [] && IsSpace(s[0]) {
      TrimLeftStart(s[1..]);
    }
  }

  lemma {:induction false} TrimRightEnd(s: string)
    ensures TrimRight(s) == [] || (!IsSpace(TrimRight(s)[|TrimRight(s)| - 1]) && TrimRight(s)[0] == s[0])
    ensures |TrimRight(s)| <= |s|
  {
    if s != [] && IsSpace(s[|s| - 1]) {
      TrimRightEnd(s[..|s| - 1]);
    }
  }

  lemma TrimSpaceTrimmed(s: string)
    ensures Trimmed(TrimSpace(s))
    ensures Trimmed(s) ==> TrimSpace(s) == s
  {
    TrimLeftStart(s);
    TrimRightEnd(TrimLeft(s));
  }

  lemma TrimTail(s: string, c: char)
    requires s != [] && Trimmed(s) && IsSpace(c)
    ensures TrimSpace(s + [c]) == s
  {
    var t := s + [c];
    assert t[0] == s[0] && t[|t| - 1] == c && t[..|t| - 1] == s;
    assert TrimLeft(t) == t;
    assert TrimRight(t) == TrimRight(s);
  }

  predicate HasPrefix(s: string, prefix: string) {
    prefix <= s
  }

  predicate HasSuffix(s: string, suffix: string) {
    |suffix| <= |s| && s[|s| - |suffix|..] == suffix
  }

  function TrimSuffix(s: string, suffix: string): string {
    if HasSuffix(s, suffix) then s[..|s| - |suffix|] else s
  }

  /** `needle` occurs in `s` at position `i`. */
  predicate OccursAt(s: string, needle: string, i: nat) {
    i + |needle| <= |s| && s[i..i + |needle|] == needle
  }

  predicate Contains(s: string, needle: string) {
    exists i :: 0 <= i <= |s| && OccursAt(s, needle, i)
  }

  /** `strings.Index`: the first occurrence at or after `from`. */
  function IndexFrom(s: string, needle: string, from: nat): (r: Option<nat>)
    requires from <= |s|
    ensures r.Some? ==> from <= r.value <= |s| && OccursAt(s, needle, r.value)
    ensures r.Some? ==> forall i :: from <= i < r.value ==> !OccursAt(s, needle, i)
    ensures r.None? ==> forall i :: from <= i <= |s| ==> !OccursAt(s, needle, i)
    decreases |s| - from
  {
    if OccursAt(s, needle, from) then Some(from)
    else if from == |s| then None else IndexFrom(s, needle, from + 1)
  }

  function Index(s: string, needle: string): Option<nat> {
    IndexFrom(s, needle, 0)
  }

  /** A needle that occurs brings its characters along. */
  lemma ContainsChar(s: string, needle: string, c: char)
    requires Contains(s, needle) && c in needle
    ensures c in s
  {
    var i :| 0 <= i <= |s| && OccursAt(s, needle, i);
    var k :| 0 <= k < |needle| && needle[k] == c;
    assert s[i..i + |needle|][k] == s[i + k];
  }

  lemma LacksChar(s: string, needle: string, c: char)
    requires c in needle && c !in s
    ensures !Contains(s, needle)
  {
    if Contains(s, needle) {
      ContainsChar(s, needle, c);
    }
  }

  lemma Mismatch(s: string, needle: string, i: nat, k: nat)
    requires k < |needle| && i + k < |s| && s[i + k] != needle[k]
    ensures !OccursAt(s, needle, i)
  {
    assert i + |needle| <= |s| ==> s[i..i + |needle|][k] == s[i + k];
  }

  lemma PrefixIsContained(s: string, needle: string)
    requires needle <= s
    ensures Contains(s, needle)
  {
    assert OccursAt(s, needle, 0);
  }

  function LowerChar(c: char): char {
    if 'A' <= c <= 'Z' then c - 'A' + 'a' else c
  }

  function UpperChar(c: char): char {
    if 'a' <= c <= 'z' then c - 'a' + 'A' else c
  }

  function ToLower(s: string): (r: string)
    ensures |r| == |s| && forall i {:trigger r[i]} :: 0 <= i < |s| ==> r[i] == LowerChar(s[i])
  {
    seq(|s|, i requires 0 <= i < |s| => LowerChar(s[i]))
  }

  function ToUpper(s: string): (r: string)
    ensures |r| == |s| && forall i {:trigger r[i]} :: 0 <= i < |s| ==> r[i] == UpperChar(s[i])
  {
    seq(|s|, i requires 0 <= i < |s| => UpperChar(s[i]))
  }

  lemma LowerSettles(s: string)
    ensures ToLower(TrimSpace(ToLower(TrimSpace(s)))) == ToLower(TrimSpace(s))
  {
    var t := TrimSpace(s);
    TrimSpaceTrimmed(s);
    TrimSpaceTrimmed(ToLower(t));
    assert ToLower(ToLower(t)) == ToLower(t);
  }

  /** `strings.Split(s, sep)` for a one-character separator: never empty. */
  function Split(s: string, sep: char): (parts: seq<string>)
    ensures |parts| > 0
  {
    if s == [] then [[]]
    else if s[0] == sep then [[]] + Split(s[1..], sep)
    else
      var rest := Split(s[1..], sep);
      [[s[0]] + rest[0]] + rest[1..]
  }

  function Join(parts: seq<string>, sep: string): string {
    if parts == [] then [] else if |parts| == 1 then parts[0]
    else parts[0] + sep + Join(parts[1..], sep)
  }

  /** Splitting a concatenation at a separator splits the two halves. */
  lemma {:induction false} SplitConcat(s: string, sep: char, t: string)
    ensures Split(s + [sep] + t, sep) == Split(s, sep) + Split(t, sep)
  {
    if s == [] {
      assert s + [sep] + t == [sep] + t;
    } else {
      assert (s + [sep] + t)[1..] == s[1..] + [sep] + t;
      SplitConcat(s[1..], sep, t);
    }
  }

  lemma {:induction false} SplitFree(s: string, sep: char)
    requires sep !in s
    ensures Split(s, sep) == [s]
  {
    if s != [] {
      SplitFree(s[1..], sep);
      assert [s[0]] + s[1..] == s;
    }
  }

  lemma SplitFirst(s: string, sep: char, t: string)
    requires sep !in s
    ensures Split(s + [sep] + t, sep) == [s] + Split(t, sep)
  {
    SplitConcat(s, sep, t);
    SplitFree(s, sep);
  }

  /** Joining what was split gives the text back ... */
  lemma {:induction false} JoinSplit(s: string, sep: char)
    ensures Join(Split(s, sep), [sep]) == s
  {
    if s != [] {
      JoinSplit(s[1..], sep);
      var rest := Split(s[1..], sep);
      if s[0] == sep {
        assert ([[]] + rest)[1..] == rest;
      } else {
        var all := [[s[0]] + rest[0]] + rest[1..];
        assert all[1..] == rest[1..];
        assert Join(all, [sep]) == [s[0]] + Join(rest, [sep]);
      }
    }
  }

  /** ... and splitting what was joined gives the parts back. */
  lemma {:induction false} SplitJoin(parts: seq<string>, sep: char)
    requires |parts| > 0 && forall p :: p in parts ==> sep !in p
    ensures Split(Join(parts, [sep]), sep) == parts
  {
    SplitFree(parts[0], sep);
    if |parts| == 1 {
      assert parts == [parts[0]];
    } else {
      SplitJoin(parts[1..], sep);
      SplitConcat(parts[0], sep, Join(parts[1..], [sep]));
      assert parts == [parts[0]] + parts[1..];
    }
  }

  /** `strings.FieldsFunc`: the non-empty stretches between separators; `word` is read already. */
  function Fields(s: string, isSep: char -> bool, word: string): seq<string> {
    if s == [] then (if word == [] then [] else [word])
    else if isSep(s[0]) then (if word == [] then [] else [word]) + Fields(s[1..], isSep, [])
    else Fields(s[1..], isSep, word + [s[0]])
  }

  lemma {:induction false} FieldsReadsWord(s: string, rest: string, isSep: char -> bool, word: string)
    requires forall c :: c in s ==> !isSep(c)
    ensures Fields(s + rest, isSep, word) == Fields(rest, isSep, word + s)
  {
    if s == [] {
      assert s + rest == rest && word + s == word;
    } else {
      assert (s + rest)[0] == s[0] && (s + rest)[1..] == s[1..] + rest;
      FieldsReadsWord(s[1..], rest, isSep, word + [s[0]]);
      assert word + [s[0]] + s[1..] == word + s;
    }
  }

  predicate IsWord(w: string, isSep: char -> bool) {
    w != [] && forall c :: c in w ==> !isSep(c)
  }

  /** Words joined by a separator are read back. */
  lemma {:induction false} FieldsJoin(words: seq<string>, isSep: char -> bool, sep: char)
    requires isSep(sep) && forall w :: w in words ==> IsWord(w, isSep)
    ensures Fields(Join(words, [sep]), isSep, []) == words
  {
    if |words| == 1 {
      assert IsWord(words[0], isSep);
      FieldsReadsWord(words[0], [], isSep, []);
      assert words[0] + [] == words[0] && [] + words[0] == words[0];
    } else if words != [] {
      assert IsWord(words[0], isSep);
      var rest := Join(words[1..], [sep]);
      FieldsReadsWord(words[0], [sep] + rest, isSep, []);
      assert [] + words[0] == words[0] && words[0] + [sep] + rest == words[0] + ([sep] + rest);
      assert ([sep] + rest)[1..] == rest;
      FieldsJoin(words[1..], isSep, sep);
    }
  }

  function Digit(n: nat): char
    requires n < 10
  {
    '0' + n as char
  }

  /** `strconv.Itoa` for naturals. */
  function Itoa(n: nat): string {
    if n < 10 then [Digit(n)] else Itoa(n / 10) + [Digit(n % 10)]
  }

  lemma {:induction false} ItoaIsDigits(n: nat)
    ensures forall c :: c in Itoa(n) ==> '0' <= c <= '9'
  {
    if n >= 10 {
      ItoaIsDigits(n / 10);
    }
  }

  /** Different numbers have different numerals. */
  lemma {:induction false} ItoaInjective(n: nat, m: nat)
    requires Itoa(n) == Itoa(m)
    ensures n == m
  {
    ItoaLast(n);
    ItoaLast(m);
    if n >= 10 && m >= 10 {
      var a, b := Itoa(n / 10), Itoa(m / 10);
      assert Itoa(n)[..|a|] == a && Itoa(m)[..|b|] == b;
      ItoaInjective(n / 10, m / 10);
    }
  }

  lemma ItoaLast(n: nat)
    ensures |Itoa(n)| >= 1 && Itoa(n)[|Itoa(n)| - 1] == Digit(n % 10) && (|Itoa(n)| == 1 <==> n < 10)
  {
    if n >= 10 {
      assert |Itoa(n / 10)| >= 1;
    }
  }
}
