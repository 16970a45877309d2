/** Which custom error page each status code of a site gets, and how codes are grouped by page. */
module ErrorPages {
  import opened Text
  import opened Sorting
  import opened Lexicographic

  datatype File = File(errorCode: string, filename: string, path: string, responseType: string)

  datatype Page = Page(enabled: bool, serverID: string, siteID: string, fileID: string)

  /** What a code leads to. */
  datatype Target = Target(filename: string, path: string, defaultType: string)

  datatype Entry = Entry(codes: seq<string>, target: Target)

  datatype Group = Group(target: Target, codes: seq<string>)

  type Files = map<string, File>

  // ---------- Lists of status codes

  predicate IsCode(t: string) {
    |t| == 3 && forall c :: c in t ==> '0' <= c <= '9'
  }

  predicate IsSeparator(c: char) {
    c == ',' || c == ' ' || c == '\t'
  }

  lemma Separators(c: char)
    ensures IsSeparator(c) <==> c in ", \t"
  {
    var s := ", \t";
    assert s[0] == ',' && s[1] == ' ' && s[2] == '\t';
  }

  function Tokens(raw: string): seq<string> {
    Fields(TrimSpace(raw), IsSeparator, [])
  }

  predicate Parsable(raw: string) {
    var t := TrimSpace(raw);
    '\r' !in t && '\n' !in t && ';' !in t && Tokens(raw) != [] && forall x :: x in Tokens(raw) ==> IsCode(x)
  }

  /** The tokens, each once, in order of first occurrence. */
  function Once(out: seq<string>, tokens: seq<string>): (r: seq<string>)
    requires Distinct(out)
    ensures Distinct(r) && forall x :: x in r <==> x in out || x in tokens
    decreases |tokens|
  {
    if tokens == [] then out else Once(if tokens[0] in out then out else out + [tokens[0]], tokens[1..])
  }

  function ParsedCodes(raw: string): Option<seq<string>> {
    if Parsable(raw) then Some(Sort(StringLess, Once([], Tokens(raw)))) else None
  }

  /** What parsing accepts, and what it yields: the codes written, ascending, each once. */
  lemma ParsedCodesAre(raw: string)
    ensures ParsedCodes(raw).Some? ==>
              var codes := ParsedCodes(raw).value;
              && codes != [] && Ascending(StringLess, codes)
              && (forall c :: c in codes ==> IsCode(c))
              && (forall c :: c in codes <==> c in Tokens(raw))
  {
    if Parsable(raw) {
      var once := Once([], Tokens(raw));
      StringOrder();
      SortAscends(StringLess, once);
      assert Tokens(raw)[0] in once;
    }
  }

  /** Parsing a normalised list gives it back. */
  lemma NormalizedCodesParse(raw: string)
    requires ParsedCodes(raw).Some?
    ensures ParsedCodes(Join(ParsedCodes(raw).value, " ")) == ParsedCodes(raw)
  {
    var codes := ParsedCodes(raw).value;
    ParsedCodesAre(raw);
    JoinedCodesParse(codes);
    ParsedCodesAre(Join(codes, " "));
    StringWeak();
    AscendingUnique(StringLess, ParsedCodes(Join(codes, " ")).value, codes);
  }

  lemma JoinedCodesParse(codes: seq<string>)
    requires codes != [] && forall c :: c in codes ==> IsCode(c)
    ensures Tokens(Join(codes, " ")) == codes && Parsable(Join(codes, " "))
  {
    forall w | w in codes ensures IsWord(w, IsSeparator) {
      assert IsCode(w);
    }
    FieldsJoin(codes, IsSeparator, ' ');
    JoinedCodes(codes);
    TrimSpaceTrimmed(Join(codes, " "));
  }

  lemma {:induction false} JoinedCodes(codes: seq<string>)
    requires codes != [] && forall c :: c in codes ==> IsCode(c)
    ensures var t := Join(codes, " ");
            t != [] && '0' <= t[0] <= '9' && '0' <= t[|t| - 1] <= '9'
              && forall c :: c in t ==> '0' <= c <= '9' || c == ' '
  {
    assert IsCode(codes[0]);
    assert codes[0][0] in codes[0] && codes[0][2] in codes[0];
    if |codes| > 1 {
      JoinedCodes(codes[1..]);
    }
  }

  lemma OnceStep(out: seq<string>, tokens: seq<string>, i: nat)
    requires Distinct(out) && i < |tokens|
    ensures Once(out, tokens[i..]) == Once(if tokens[i] in out then out else out + [tokens[i]], tokens[i + 1..])
  {
    assert tokens[i..][1..] == tokens[i + 1..];
  }

  /** The set holds what the list holds. */
  ghost predicate Mirrors(seen: set<string>, out: seq<string>) {
    forall x :: x in seen <==> x in out
  }

  lemma MirrorsNext(seen: set<string>, out: seq<string>, x: string)
    requires Mirrors(seen, out)
    ensures Mirrors(seen + {x}, out + [x]) && (x in seen <==> x in out)
  {
  }

  /** The loop over the tokens. */
  method CollectCodes(tokens: seq<string>, isCode: string -> bool) returns (codes: Option<seq<string>>)
    ensures codes == if forall x :: x in tokens ==> isCode(x) then Some(Once([], tokens)) else None
  {
    ghost var all := Once([], tokens);
    assert tokens[0..] == tokens;
    var seen, out := {}, [];
    for i := 0 to |tokens|
      invariant Mirrors(seen, out) && Distinct(out) && all == Once(out, tokens[i..])
      invariant forall k :: 0 <= k < i ==> isCode(tokens[k])
    {
      var token := tokens[i];
      OnceStep(out, tokens, i);
      MirrorsNext(seen, out, token);
      if !isCode(token) {
        assert token in tokens;
        return None;
      }
      if token !in seen {
        seen, out := seen + {token}, out + [token];
      }
    }
    assert tokens[|tokens|..] == [];
    return Some(out);
  }

  /** `parseNginxErrorCodes` */
  method ParseNginxErrorCodes(raw: string) returns (codes: Option<seq<string>>)
    ensures codes == ParsedCodes(raw)
  {
    var trimmed := TrimSpace(raw);
    if trimmed == "" || '\r' in trimmed || '\n' in trimmed || ';' in trimmed {
      return None;
    }
    var tokens := Fields(trimmed, IsSeparator, []);
    if |tokens| == 0 {
      return None;
    }
    codes := CollectCodes(tokens, IsCode);
    if codes.Some? {
      codes := Some(Sort(StringLess, codes.value));
    }
  }

  // ---------- Pages

  /** `nginxDefaultType` */
  function DefaultType(responseType: string): string {
    var t := ToLower(TrimSpace(responseType));
    if t == "html" then "text/html"
    else if t in {"plain", "text", "txt"} then "text/plain"
    else if t == "css" then "text/css"
    else if t == "xml" then "application/xml"
    else if t == "json" then "application/json"
    else if t in {"js", "javascript"} then "application/javascript"
    else "text/plain"
  }

  predicate GoodFilename(name: string) {
    name != "" && (forall c :: c in name ==> c !in "/\\\r\n;") && !Contains(name, "..")
  }

  predicate GoodPath(path: string) {
    path != "" && forall c :: c in path ==> c !in "\r\n;"
  }

  function TargetOf(file: File): Target {
    Target(TrimSpace(file.filename), TrimSpace(file.path), DefaultType(file.responseType))
  }

  /** The codes a page covers and where they lead, if its file is there and well formed. */
  function Resolved(page: Page, files: Files): Option<Entry> {
    if page.fileID !in files then None
    else
      var file := files[page.fileID];
      var codes := ParsedCodes(file.errorCode);
      if codes.None? || !GoodFilename(TrimSpace(file.filename)) || !GoodPath(TrimSpace(file.path)) then None
      else Some(Entry(codes.value, TargetOf(file)))
  }

  /** `resolveErrorPage` */
  method ResolveErrorPage(page: Page, files: Files) returns (r: Option<Entry>)
    ensures r == Resolved(page, files)
  {
    if page.fileID !in files {
      return None;
    }
    var file := files[page.fileID];
    var codes := ParseNginxErrorCodes(file.errorCode);
    if codes.None? {
      return None;
    }
    var filename := TrimSpace(file.filename);
    if !GoodFilename(filename) {
      return None;
    }
    var path := TrimSpace(file.path);
    if !GoodPath(path) {
      return None;
    }
    return Some(Entry(codes.value, Target(filename, path, DefaultType(file.responseType))));
  }

  /** A page covers codes exactly if its file is there, its code list parses, its name is a plain
      file name and its path a single line without semicolon; it then leads to that file. */
  lemma ResolvedIs(page: Page, files: Files)
    ensures Resolved(page, files).Some? <==>
              && page.fileID in files && Parsable(files[page.fileID].errorCode)
              && var name, path := TrimSpace(files[page.fileID].filename), TrimSpace(files[page.fileID].path);
              && name != "" && path != "" && '/' !in name && '\\' !in name && !Contains(name, "..")
              && (forall c :: c in name || c in path ==> c != '\r' && c != '\n' && c != ';')
    ensures Resolved(page, files).Some? ==>
              var file, entry := files[page.fileID], Resolved(page, files).value;
              && entry.target.filename == TrimSpace(file.filename) && entry.target.path == TrimSpace(file.path)
              && (forall c :: c in entry.codes <==> c in Tokens(file.errorCode))
  {
    if page.fileID in files {
      ParsedCodesAre(files[page.fileID].errorCode);
      GoodNameIs(TrimSpace(files[page.fileID].filename));
      GoodPathIs(TrimSpace(files[page.fileID].path));
    }
  }

  lemma GoodNameIs(name: string)
    ensures GoodFilename(name) <==>
              && name != "" && '/' !in name && '\\' !in name && !Contains(name, "..")
              && forall c :: c in name ==> c != '\r' && c != '\n' && c != ';'
  {
    var bad := "/\\\r\n;";
    assert bad[0] == '/' && bad[1] == '\\' && bad[2] == '\r' && bad[3] == '\n' && bad[4] == ';' && |bad| == 5;
    forall c | c in bad ensures c == '/' || c == '\\' || c == '\r' || c == '\n' || c == ';' {
    }
  }

  lemma GoodPathIs(path: string)
    ensures GoodPath(path) <==> path != "" && forall c :: c in path ==> c != '\r' && c != '\n' && c != ';'
  {
    var bad := "\r\n;";
    assert bad[0] == '\r' && bad[1] == '\n' && bad[2] == ';' && |bad| == 3;
  }

  /** The known types, in any case and spacing; anything else is plain text. */
  lemma TypesAreKnown(raw: string)
    ensures var t := ToLower(TrimSpace(raw));
            && (t == "html" ==> DefaultType(raw) == "text/html") && (t == "css" ==> DefaultType(raw) == "text/css")
            && (t == "xml" ==> DefaultType(raw) == "application/xml")
            && (t == "json" ==> DefaultType(raw) == "application/json")
            && (t == "js" || t == "javascript" ==> DefaultType(raw) == "application/javascript")
            && (t !in {"html", "css", "xml", "json", "js", "javascript"} ==> DefaultType(raw) == "text/plain")
  {
  }

  // ---------- Merging

  /** The pages in force for the site (or `*`), in order; the others leave a gap. */
  type Layer = seq<Option<Entry>>

  predicate Applies(page: Page, serverID: string, siteID: string) {
    page.enabled && page.serverID == serverID && page.siteID == siteID
  }

  function LayerOf(pages: seq<Page>, serverID: string, siteID: string, files: Files): (layer: Layer)
    ensures |layer| == |pages|
    ensures forall i :: 0 <= i < |pages| ==>
              layer[i] == if Applies(pages[i], serverID, siteID) then Resolved(pages[i], files) else None
  {
    seq(|pages|, i requires 0 <= i < |pages| =>
      if Applies(pages[i], serverID, siteID) then Resolved(pages[i], files) else None)
  }

  function WithEntry(m: map<string, Target>, e: Option<Entry>): map<string, Target> {
    if e.None? then m else m + map c | c in e.value.codes :: e.value.target
  }

  function Overlaid(m: map<string, Target>, layer: Layer): map<string, Target> {
    if layer == [] then m else WithEntry(Overlaid(m, layer[..|layer| - 1]), layer[|layer| - 1])
  }

  predicate Covers(e: Option<Entry>, code: string) {
    e.Some? && code in e.value.codes
  }

  /** Entry `i` sends the code to the target and no later one covers it. */
  ghost predicate LastSends(layer: Layer, i: nat, code: string, t: Target) {
    && i < |layer| && Covers(layer[i], code) && layer[i].value.target == t
    && forall j :: i < j < |layer| ==> !Covers(layer[j], code)
  }

  ghost predicate Covered(layer: Layer, code: string) {
    exists i :: 0 <= i < |layer| && Covers(layer[i], code)
  }

  lemma {:induction false} OverlaidIsLast(m: map<string, Target>, layer: Layer, code: string)
    ensures Covered(layer, code) ==>
              code in Overlaid(m, layer) && exists i :: LastSends(layer, i, code, Overlaid(m, layer)[code])
    ensures !Covered(layer, code) ==>
              (code in Overlaid(m, layer) <==> code in m) && (code in m ==> Overlaid(m, layer)[code] == m[code])
  {
    if layer != [] {
      var n := |layer| - 1;
      var init := layer[..n];
      OverlaidIsLast(m, init, code);
      if Covers(layer[n], code) {
        assert LastSends(layer, n, code, Overlaid(m, layer)[code]);
      } else if Covered(layer, code) {
        var k :| 0 <= k < |layer| && Covers(layer[k], code);
        assert Covers(init[k], code);
        var i :| LastSends(init, i, code, Overlaid(m, init)[code]);
        assert LastSends(layer, i, code, Overlaid(m, layer)[code]);
      } else {
        forall k | 0 <= k < |init| ensures !Covers(init[k], code) {
          assert !Covers(layer[k], code);
        }
      }
    }
  }

  /** The code's target: that of the site's last page for it, else of the last wildcard page. */
  ghost predicate Chosen(wildcard: Layer, own: Layer, code: string, t: Target) {
    if Covered(own, code) then exists i :: LastSends(own, i, code, t) else exists i :: LastSends(wildcard, i, code, t)
  }

  function Merged(wildcard: Layer, own: Layer): map<string, Target> {
    Overlaid(Overlaid(map[], wildcard), own)
  }

  lemma MergedIsChosen(wildcard: Layer, own: Layer, code: string, t: Target)
    ensures code in Merged(wildcard, own) && Merged(wildcard, own)[code] == t <==> Chosen(wildcard, own, code, t)
  {
    OverlaidIsLast(map[], wildcard, code);
    OverlaidIsLast(Overlaid(map[], wildcard), own, code);
    OneLast(wildcard, code);
    OneLast(own, code);
  }

  lemma OneLast(layer: Layer, code: string)
    ensures forall i, j, t, u :: LastSends(layer, i, code, t) && LastSends(layer, j, code, u) ==> t == u
    ensures forall i, t :: LastSends(layer, i, code, t) ==> Covered(layer, code)
  {
  }

  /** Page `i` is enabled for the server and the site, covers the code, and is the last that does. */
  ghost predicate PageSends(pages: seq<Page>, serverID: string, siteID: string, files: Files, i: nat, code: string,
                            t: Target) {
    && i < |pages| && PageCovers(pages[i], serverID, siteID, files, code)
    && Resolved(pages[i], files).value.target == t
    && forall j :: i < j < |pages| ==> !PageCovers(pages[j], serverID, siteID, files, code)
  }

  predicate PageCovers(page: Page, serverID: string, siteID: string, files: Files, code: string) {
    && page.enabled && page.serverID == serverID && page.siteID == siteID
    && Resolved(page, files).Some? && code in Resolved(page, files).value.codes
  }

  lemma LayerSends(pages: seq<Page>, serverID: string, siteID: string, files: Files, i: nat, code: string, t: Target)
    ensures LastSends(LayerOf(pages, serverID, siteID, files), i, code, t)
            <==> PageSends(pages, serverID, siteID, files, i, code, t)
  {
    var layer := LayerOf(pages, serverID, siteID, files);
    forall j | 0 <= j < |pages|
      ensures Covers(layer[j], code) <==> PageCovers(pages[j], serverID, siteID, files, code) {
    }
  }

  lemma LayerCovers(pages: seq<Page>, serverID: string, siteID: string, files: Files, code: string)
    ensures Covered(LayerOf(pages, serverID, siteID, files), code)
            <==> exists page :: page in pages && PageCovers(page, serverID, siteID, files, code)
  {
    var layer := LayerOf(pages, serverID, siteID, files);
    if page :| page in pages && PageCovers(page, serverID, siteID, files, code) {
      var i :| 0 <= i < |pages| && pages[i] == page;
      assert Covers(layer[i], code);
    }
    if Covered(layer, code) {
      var i :| 0 <= i < |layer| && Covers(layer[i], code);
      assert pages[i] in pages && PageCovers(pages[i], serverID, siteID, files, code);
    }
  }

  /** In terms of the pages: a code leads to the file of the last enabled page of this server for the
      site that covers it; where no page for the site does, to that of the last one for all sites. */
  lemma PagesDecide(pages: seq<Page>, serverID: string, siteID: string, files: Files, code: string, t: Target)
    ensures var m := Merged(LayerOf(pages, serverID, "*", files), LayerOf(pages, serverID, siteID, files));
            code in m && m[code] == t
            <==> if exists page :: page in pages && PageCovers(page, serverID, siteID, files, code)
                 then exists i: nat :: PageSends(pages, serverID, siteID, files, i, code, t)
                 else exists i: nat :: PageSends(pages, serverID, "*", files, i, code, t)
  {
    var all, own := LayerOf(pages, serverID, "*", files), LayerOf(pages, serverID, siteID, files);
    MergedIsChosen(all, own, code, t);
    LayerCovers(pages, serverID, siteID, files, code);
    forall i: nat
      ensures LastSends(own, i, code, t) <==> PageSends(pages, serverID, siteID, files, i, code, t)
      ensures LastSends(all, i, code, t) <==> PageSends(pages, serverID, "*", files, i, code, t)
    {
      LayerSends(pages, serverID, siteID, files, i, code, t);
      LayerSends(pages, serverID, "*", files, i, code, t);
    }
  }

  lemma OverlaidSnoc(m: map<string, Target>, layer: Layer, i: nat)
    requires i < |layer|
    ensures Overlaid(m, layer[..i + 1]) == WithEntry(Overlaid(m, layer[..i]), layer[i])
  {
    assert layer[..i + 1][..i] == layer[..i];
  }

  /** One of the two passes over the pages. */
  method MergePages(m: map<string, Target>, pages: seq<Page>, serverID: string, siteID: string, files: Files)
    returns (merged: map<string, Target>)
    ensures merged == Overlaid(m, LayerOf(pages, serverID, siteID, files))
  {
    merged := m;
    ghost var layer := LayerOf(pages, serverID, siteID, files);
    for i := 0 to |pages|
      invariant merged == Overlaid(m, layer[..i])
    {
      OverlaidSnoc(m, layer, i);
      if Applies(pages[i], serverID, siteID) {
        var r := ResolveErrorPage(pages[i], files);
        if r.Some? {
          merged := PutCodes(merged, r.value);
        }
      }
    }
    assert layer[..|pages|] == layer;
  }

  method PutCodes(m: map<string, Target>, e: Entry) returns (merged: map<string, Target>)
    ensures merged == WithEntry(m, Some(e))
  {
    merged := m;
    for k := 0 to |e.codes|
      invariant merged == m + map c | c in e.codes[..k] :: e.target
    {
      merged := merged[e.codes[k] := e.target];
      assert e.codes[..k + 1] == e.codes[..k] + [e.codes[k]];
    }
    assert e.codes[..|e.codes|] == e.codes;
  }

  // ---------- Grouping

  function KeyOf(t: Target): string {
    t.filename + "\0" + t.path + "\0" + t.defaultType
  }

  ghost predicate KeysTellApart(m: map<string, Target>) {
    forall c, d :: c in m && d in m && KeyOf(m[c]) == KeyOf(m[d]) ==> m[c] == m[d]
  }

  predicate GroupLess(a: Group, b: Group) {
    var x, y := Join(a.codes, " "), Join(b.codes, " ");
    if x == y then StringLess(a.target.filename, b.target.filename) else StringLess(x, y)
  }

  /** The groups split the codes of the map, each group's codes and the groups themselves sorted. */
  ghost predicate Splits(m: map<string, Target>, out: seq<Group>) {
    && (forall i :: 0 <= i < |out| ==> out[i].codes != [] && Ascending(StringLess, out[i].codes))
    && (forall c :: c in m <==> exists i :: 0 <= i < |out| && c in out[i].codes)
    && (forall i, j, c :: 0 <= i < j < |out| && c in out[i].codes ==> c !in out[j].codes)
    && Ascending(GroupLess, out)
  }

  /** Every group holds exactly the codes that lead to its file. */
  ghost predicate ByTarget(m: map<string, Target>, out: seq<Group>) {
    forall i, c :: 0 <= i < |out| ==> (c in out[i].codes <==> c in m && m[c] == out[i].target)
  }

  /** A group in the making: the codes under its key, in the order met, and the first one's file. */
  ghost predicate Holds(m: map<string, Target>, key: Target -> string, order: seq<string>, k: string, g: Group) {
    && g.codes != [] && Distinct(g.codes) && key(g.target) == k
    && g.codes[0] in m && m[g.codes[0]] == g.target
    && forall c :: c in g.codes <==> c in order && c in m && key(m[c]) == k
  }

  ghost predicate GroupedSoFar(m: map<string, Target>, key: Target -> string, order: seq<string>,
                               grouped: map<string, Group>) {
    && (forall c :: c in order ==> c in m && key(m[c]) in grouped)
    && (forall k :: k in grouped ==> Holds(m, key, order, k, grouped[k]))
  }

  function AddCode(grouped: map<string, Group>, k: string, t: Target, code: string): map<string, Group> {
    if k in grouped then grouped[k := grouped[k].(codes := grouped[k].codes + [code])]
    else grouped[k := Group(t, [code])]
  }

  lemma AddCodeHolds(m: map<string, Target>, key: Target -> string, order: seq<string>, grouped: map<string, Group>,
                     code: string)
    requires GroupedSoFar(m, key, order, grouped) && code in m && code !in order
    ensures GroupedSoFar(m, key, order + [code], AddCode(grouped, key(m[code]), m[code], code))
  {
    var k := key(m[code]);
    var after := AddCode(grouped, k, m[code], code);
    forall j | j in after ensures Holds(m, key, order + [code], j, after[j]) {
      assert j != k ==> Holds(m, key, order, j, grouped[j]);
      assert k in grouped ==> Holds(m, key, order, k, grouped[k]);
    }
  }

  lemma NextCodeHolds(m: map<string, Target>, key: Target -> string, codes: seq<string>, i: nat,
                      grouped: map<string, Group>)
    requires i < |codes| && Distinct(codes) && codes[i] in m && GroupedSoFar(m, key, codes[..i], grouped)
    ensures GroupedSoFar(m, key, codes[..i + 1], AddCode(grouped, key(m[codes[i]]), m[codes[i]], codes[i]))
  {
    assert codes[i] !in codes[..i];
    AddCodeHolds(m, key, codes[..i], grouped, codes[i]);
    assert codes[..i + 1] == codes[..i] + [codes[i]];
  }

  /** The loop over the codes, for any way to make keys. */
  method GroupCodes(m: map<string, Target>, key: Target -> string)
    returns (grouped: map<string, Group>, ghost order: seq<string>)
    ensures GroupedSoFar(m, key, order, grouped) && forall c :: c in order <==> c in m
  {
    var codes := Visit(m.Keys);
    grouped := map[];
    for i := 0 to |codes|
      invariant GroupedSoFar(m, key, codes[..i], grouped)
    {
      assert codes[i] in codes;
      NextCodeHolds(m, key, codes, i, grouped);
      var file := m[codes[i]];
      grouped := AddCode(grouped, key(file), file, codes[i]);
    }
    assert codes[..|codes|] == codes;
    order := codes;
  }

  /** The groups by key, in any order: blocks of codes that share a key. */
  ghost predicate Block(m: map<string, Target>, key: Target -> string, g: Group) {
    && g.codes != [] && Ascending(StringLess, g.codes)
    && (forall c :: c in g.codes <==> c in m && key(m[c]) == key(g.target))
    && exists c :: c in g.codes && m[c] == g.target
  }

  ghost predicate Blocks(m: map<string, Target>, key: Target -> string, s: seq<Group>) {
    && Distinct(s) && (forall g :: g in s ==> Block(m, key, g))
    && (forall g, h :: g in s && h in s && g != h ==> key(g.target) != key(h.target))
    && (forall c :: c in m ==> exists g :: g in s && c in g.codes)
  }

  function SortedGroup(g: Group): Group {
    g.(codes := Sort(StringLess, g.codes))
  }

  lemma SortedGroupIsBlock(m: map<string, Target>, key: Target -> string, order: seq<string>, k: string, g: Group)
    requires Holds(m, key, order, k, g) && forall c :: c in order <==> c in m
    ensures Block(m, key, SortedGroup(g))
  {
    StringOrder();
    SortAscends(StringLess, g.codes);
    assert g.codes[0] in SortedGroup(g).codes;
  }

  /** The loop over the groups, for any way to arrange one. */
  method ListGroups(grouped: map<string, Group>, arrange: Group -> Group)
    returns (out: seq<Group>, ghost keys: seq<string>)
    ensures Listed(grouped, arrange, keys, out)
  {
    var visited := Visit(grouped.Keys);
    out := [];
    for i := 0 to |visited|
      invariant |out| == i && forall j :: 0 <= j < i ==> out[j] == arrange(grouped[visited[j]])
    {
      assert visited[i] in visited;
      out := out + [arrange(grouped[visited[i]])];
    }
    keys := visited;
  }

  ghost predicate Listed(grouped: map<string, Group>, arrange: Group -> Group, keys: seq<string>, out: seq<Group>) {
    && Distinct(keys) && |out| == |keys| && (forall k :: k in keys <==> k in grouped)
    && forall j :: 0 <= j < |keys| ==> keys[j] in grouped && out[j] == arrange(grouped[keys[j]])
  }

  lemma ListedKeys(m: map<string, Target>, key: Target -> string, order: seq<string>, grouped: map<string, Group>,
                   arrange: Group -> Group, keys: seq<string>, out: seq<Group>)
    requires GroupedSoFar(m, key, order, grouped) && Listed(grouped, arrange, keys, out)
    requires forall k :: k in grouped ==> arrange(grouped[k]).target == grouped[k].target
    ensures forall j :: 0 <= j < |out| ==> key(out[j].target) == keys[j]
  {
    forall j | 0 <= j < |keys| ensures key(out[j].target) == keys[j] {
      assert Holds(m, key, order, keys[j], grouped[keys[j]]);
    }
  }

  lemma ListedApart(key: Target -> string, keys: seq<string>, out: seq<Group>)
    requires Distinct(keys) && |out| == |keys| && forall j :: 0 <= j < |out| ==> key(out[j].target) == keys[j]
    ensures Distinct(out) && forall g, h :: g in out && h in out && g != h ==> key(g.target) != key(h.target)
  {
    forall i, j | 0 <= i < j < |keys| ensures out[i] != out[j] {
      assert keys[i] != keys[j];
    }
  }

  lemma ListedCode(m: map<string, Target>, key: Target -> string, keys: seq<string>, out: seq<Group>, c: string)
    requires |out| == |keys| && forall j :: 0 <= j < |out| ==> key(out[j].target) == keys[j] && Block(m, key, out[j])
    requires c in m && key(m[c]) in keys
    ensures exists g :: g in out && c in g.codes
  {
    var j :| 0 <= j < |keys| && keys[j] == key(m[c]);
    assert Block(m, key, out[j]);
    assert out[j] in out && c in out[j].codes;
  }

  lemma ListedBlock(m: map<string, Target>, key: Target -> string, out: seq<Group>, g: Group)
    requires g in out && forall j :: 0 <= j < |out| ==> Block(m, key, out[j])
    ensures Block(m, key, g)
  {
  }

  lemma ListedAreBlocks(m: map<string, Target>, key: Target -> string, keys: seq<string>, out: seq<Group>)
    requires Distinct(keys) && |out| == |keys| && forall c :: c in m ==> key(m[c]) in keys
    requires forall j :: 0 <= j < |out| ==> key(out[j].target) == keys[j] && Block(m, key, out[j])
    ensures Blocks(m, key, out)
  {
    ListedApart(key, keys, out);
    forall c | c in m ensures exists g :: g in out && c in g.codes {
      ListedCode(m, key, keys, out, c);
    }
    forall g | g in out ensures Block(m, key, g) {
      ListedBlock(m, key, out, g);
    }
  }

  lemma BlocksPermute(m: map<string, Target>, key: Target -> string, a: seq<Group>, b: seq<Group>)
    requires Blocks(m, key, a) && multiset(a) == multiset(b)
    ensures Blocks(m, key, b)
  {
    PermutationDistinct(a, b);
    forall g ensures g in a <==> g in b {
      assert g in multiset(a) <==> g in multiset(b);
    }
  }

  /** Every code gets its own file exactly when no two files share a key. */
  lemma BlocksByTarget(m: map<string, Target>, out: seq<Group>)
    requires Blocks(m, KeyOf, out)
    ensures ByTarget(m, out) <==> KeysTellApart(m)
  {
    BlocksByKey(m, KeyOf, out);
  }

  lemma SameBlock(m: map<string, Target>, key: Target -> string, out: seq<Group>, c: string, d: string)
    requires Blocks(m, key, out) && ByTarget(m, out) && c in m && d in m && key(m[c]) == key(m[d])
    ensures m[c] == m[d]
  {
    var g :| g in out && c in g.codes;
    assert Block(m, key, g);
    var i :| 0 <= i < |out| && out[i] == g;
    assert d in out[i].codes;
  }

  lemma MixedBlock(m: map<string, Target>, key: Target -> string, g: Group, c: string)
    requires Block(m, key, g) && !(c in g.codes <==> c in m && m[c] == g.target)
    ensures exists d :: d in m && c in m && key(m[c]) == key(m[d]) && m[c] != m[d]
  {
    var d :| d in g.codes && m[d] == g.target;
    assert d in m && key(m[d]) == key(g.target);
  }

  lemma BlocksByKey(m: map<string, Target>, key: Target -> string, out: seq<Group>)
    requires Blocks(m, key, out)
    ensures ByTarget(m, out) <==> forall c, d :: c in m && d in m && key(m[c]) == key(m[d]) ==> m[c] == m[d]
  {
    if ByTarget(m, out) {
      forall c, d | c in m && d in m && key(m[c]) == key(m[d]) ensures m[c] == m[d] {
        SameBlock(m, key, out, c, d);
      }
    } else {
      var i, c :| 0 <= i < |out| && !(c in out[i].codes <==> c in m && m[c] == out[i].target);
      MixedBlock(m, key, out[i], c);
    }
  }

  // ---------- Order of the groups

  lemma GroupOrder()
    ensures StrictWeak(GroupLess)
  {
    StringOrder();
    StringWeak();
    forall a, b, c | !GroupLess(a, b) && !GroupLess(b, c) ensures !GroupLess(a, c) {
      var x, y, z := Join(a.codes, " "), Join(b.codes, " "), Join(c.codes, " ");
      LessChain(x, y, z, a.target.filename, b.target.filename, c.target.filename);
    }
  }

  lemma LessChain(x: string, y: string, z: string, f: string, g: string, h: string)
    requires StrictTotal(StringLess)
    requires !(if x == y then StringLess(f, g) else StringLess(x, y))
    requires !(if y == z then StringLess(g, h) else StringLess(y, z))
    ensures !(if x == z then StringLess(f, h) else StringLess(x, z))
  {
    LessChainBy(StringLess, x, y, z, f, g, h);
  }

  lemma LessChainBy(less: (string, string) -> bool, x: string, y: string, z: string, f: string, g: string, h: string)
    requires StrictTotal(less)
    requires !(if x == y then less(f, g) else less(x, y)) && !(if y == z then less(g, h) else less(y, z))
    ensures !(if x == z then less(f, h) else less(x, z))
  {
  }

  /** Code lists that share no code are told apart by their joined texts. */
  lemma JoinedTellApart(a: seq<string>, b: seq<string>)
    requires a != [] && b != [] && forall c :: c in a || c in b ==> IsCode(c)
    ensures Join(a, " ") == Join(b, " ") ==> a == b
  {
    forall c | c in a || c in b ensures ' ' !in c {
      assert IsCode(c);
    }
    SplitJoin(a, ' ');
    SplitJoin(b, ' ');
  }

  /** Two blocks of a listing: they share no code. */
  lemma BlocksApart(m: map<string, Target>, key: Target -> string, out: seq<Group>, i: nat, j: nat)
    requires Blocks(m, key, out) && i < j < |out|
    ensures forall c :: c in out[i].codes ==> c !in out[j].codes
  {
    assert out[i] in out && out[j] in out && out[i] != out[j];
    assert Block(m, key, out[i]) && Block(m, key, out[j]);
  }

  lemma ApartIsLess(a: Group, b: Group)
    requires a.codes != [] && b.codes != [] && forall c :: c in a.codes || c in b.codes ==> IsCode(c)
    requires !GroupLess(b, a) && forall c :: c in a.codes ==> c !in b.codes
    ensures GroupLess(a, b)
  {
    JoinedTellApart(a.codes, b.codes);
    assert a.codes[0] in a.codes;
    StringOrder();
  }

  lemma BlockCodes(m: map<string, Target>, key: Target -> string, out: seq<Group>, i: nat)
    requires Blocks(m, key, out) && i < |out| && forall c :: c in m ==> IsCode(c)
    ensures out[i].codes != [] && Ascending(StringLess, out[i].codes)
    ensures forall c :: c in out[i].codes ==> c in m && IsCode(c)
  {
    assert Block(m, key, out[i]);
  }

  /** So the order of the groups is total on them, and sorting leaves no choice. */
  lemma SortedBlocksAscend(m: map<string, Target>, key: Target -> string, out: seq<Group>)
    requires Blocks(m, key, out) && Sorted(GroupLess, out) && forall c :: c in m ==> IsCode(c)
    ensures Ascending(GroupLess, out)
  {
    forall i, j | 0 <= i < j < |out| ensures GroupLess(out[i], out[j]) {
      BlocksApart(m, key, out, i, j);
      BlockCodes(m, key, out, i);
      BlockCodes(m, key, out, j);
      ApartIsLess(out[i], out[j]);
    }
  }

  lemma BlocksSplit(m: map<string, Target>, key: Target -> string, out: seq<Group>)
    requires Blocks(m, key, out) && Ascending(GroupLess, out) && forall c :: c in m ==> IsCode(c)
    ensures Splits(m, out)
  {
    forall i | 0 <= i < |out| ensures out[i].codes != [] && Ascending(StringLess, out[i].codes) {
      BlockCodes(m, key, out, i);
    }
    forall i, j, c | 0 <= i < j < |out| && c in out[i].codes ensures c !in out[j].codes {
      BlocksApart(m, key, out, i, j);
    }
    forall c ensures c in m <==> exists i :: 0 <= i < |out| && c in out[i].codes {
      if c in m {
        var g :| g in out && c in g.codes;
        var i :| 0 <= i < |out| && out[i] == g;
      } else {
        forall i | 0 <= i < |out| ensures c !in out[i].codes {
          BlockCodes(m, key, out, i);
        }
      }
    }
  }

  lemma ArrangedAreBlocks(m: map<string, Target>, key: Target -> string, order: seq<string>,
                          grouped: map<string, Group>,
                          keys: seq<string>, listed: seq<Group>)
    requires GroupedSoFar(m, key, order, grouped) && forall c :: c in order <==> c in m
    requires Listed(grouped, SortedGroup, keys, listed)
    ensures Blocks(m, key, listed)
  {
    ListedKeys(m, key, order, grouped, SortedGroup, keys, listed);
    forall j | 0 <= j < |listed| ensures Block(m, key, listed[j]) {
      assert Holds(m, key, order, keys[j], grouped[keys[j]]);
      SortedGroupIsBlock(m, key, order, keys[j], grouped[keys[j]]);
    }
    ListedAreBlocks(m, key, keys, listed);
  }

  method ListBlocks(m: map<string, Target>, key: Target -> string) returns (listed: seq<Group>)
    ensures Blocks(m, key, listed)
  {
    var grouped; ghost var order, keys;
    grouped, order := GroupCodes(m, key);
    listed, keys := ListGroups(grouped, SortedGroup);
    ArrangedAreBlocks(m, key, order, grouped, keys, listed);
  }

  /** The grouping half of `resolveErrorPagesForSite`, for any order of visiting codes and groups. */
  method GroupByFile(m: map<string, Target>) returns (out: seq<Group>)
    requires forall c :: c in m ==> IsCode(c)
    ensures Splits(m, out) && (ByTarget(m, out) <==> KeysTellApart(m)) && Blocks(m, KeyOf, out)
  {
    var listed := ListBlocks(m, KeyOf);
    out := SortGroups(m, KeyOf, listed);
    BlocksByTarget(m, out);
  }

  method SortGroups(m: map<string, Target>, ghost key: Target -> string, listed: seq<Group>) returns (out: seq<Group>)
    requires Blocks(m, key, listed) && forall c :: c in m ==> IsCode(c)
    ensures Blocks(m, key, out) && Splits(m, out)
  {
    out := Sort(GroupLess, listed);
    GroupOrder();
    SortSorted(GroupLess, listed);
    BlocksPermute(m, key, listed, out);
    SortedBlocksAscend(m, key, out);
    BlocksSplit(m, key, out);
  }

  lemma {:induction false} MergedCodes(m: map<string, Target>, layer: Layer)
    requires (forall c :: c in m ==> IsCode(c)) && forall i, c :: 0 <= i < |layer| && Covers(layer[i], c) ==> IsCode(c)
    ensures forall c :: c in Overlaid(m, layer) ==> IsCode(c)
  {
    if layer != [] {
      var init, last := layer[..|layer| - 1], layer[|layer| - 1];
      forall i, c | 0 <= i < |init| && Covers(init[i], c) ensures IsCode(c) {
        assert Covers(layer[i], c);
      }
      MergedCodes(m, init);
      assert forall c :: Covers(last, c) ==> IsCode(c);
    }
  }

  lemma LayerCodes(pages: seq<Page>, serverID: string, siteID: string, files: Files)
    ensures var layer := LayerOf(pages, serverID, siteID, files);
            forall i, c :: 0 <= i < |layer| && Covers(layer[i], c) ==> IsCode(c)
  {
    var layer := LayerOf(pages, serverID, siteID, files);
    forall i, c | 0 <= i < |layer| && Covers(layer[i], c) ensures IsCode(c) {
      ParsedCodesAre(files[pages[i].fileID].errorCode);
    }
  }

  /** `resolveErrorPagesForSite`: the groups split the codes covered, sorted, codes whose files share
      a key together; and each code is with its own file exactly when the keys tell the chosen files
      apart. */
  method ResolveErrorPagesForSite(serverID: string, siteID: nat, pages: seq<Page>, files: Files)
    returns (out: seq<Group>)
    ensures var m := Merged(LayerOf(pages, serverID, "*", files), LayerOf(pages, serverID, Itoa(siteID), files));
            Splits(m, out) && (ByTarget(m, out) <==> KeysTellApart(m)) && Blocks(m, KeyOf, out)
  {
    var merged := MergePages(map[], pages, serverID, "*", files);
    LayerCodes(pages, serverID, "*", files);
    MergedCodes(map[], LayerOf(pages, serverID, "*", files));
    LayerCodes(pages, serverID, Itoa(siteID), files);
    MergedCodes(merged, LayerOf(pages, serverID, Itoa(siteID), files));
    merged := MergePages(merged, pages, serverID, Itoa(siteID), files);
    out := GroupByFile(merged);
  }

  /** One outcome only: whatever order the maps are visited in, the groups are the same. */
  lemma OrderDoesNotMatter(m: map<string, Target>, a: seq<Group>, b: seq<Group>)
    requires Splits(m, a) && ByTarget(m, a) && Splits(m, b) && ByTarget(m, b)
    ensures a == b
  {
    forall g | g in a ensures g in b {
      GroupIsIn(m, a, b, g);
    }
    forall g | g in b ensures g in a {
      GroupIsIn(m, b, a, g);
    }
    GroupOrder();
    AscendingUnique(GroupLess, a, b);
  }

  lemma GroupIsIn(m: map<string, Target>, a: seq<Group>, b: seq<Group>, g: Group)
    requires Splits(m, a) && ByTarget(m, a) && Splits(m, b) && ByTarget(m, b) && g in a
    ensures g in b
  {
    var i :| 0 <= i < |a| && a[i] == g;
    var c := g.codes[0];
    assert c in a[i].codes;
    var j := GroupWith(m, b, c);
    StringOrder();
    SameGroup(m, a[i], b[j], StringLess);
  }

  lemma GroupWith(m: map<string, Target>, out: seq<Group>, c: string) returns (j: nat)
    requires Splits(m, out) && c in m
    ensures j < |out| && c in out[j].codes
  {
    j :| 0 <= j < |out| && c in out[j].codes;
  }

  lemma SameGroup(m: map<string, Target>, g: Group, h: Group, less: (string, string) -> bool)
    requires StrictTotal(less) && Ascending(less, g.codes) && Ascending(less, h.codes) && g.target == h.target
    requires forall c :: c in g.codes <==> c in m && m[c] == g.target
    requires forall c :: c in h.codes <==> c in m && m[c] == h.target
    ensures g == h
  {
    TotalIsWeak(less);
    AscendingUnique(less, g.codes, h.codes);
  }

  /** File names without NUL suffice: the key then reads back. */
  lemma CleanNamesTellApart(m: map<string, Target>)
    requires forall c :: c in m ==> '\0' !in m[c].filename && '\0' !in m[c].defaultType
    ensures KeysTellApart(m)
  {
    forall c, d | c in m && d in m && KeyOf(m[c]) == KeyOf(m[d]) ensures m[c] == m[d] {
      KeyReadsBack(m[c], m[d]);
    }
  }

  lemma KeyReadsBack(t: Target, u: Target)
    requires '\0' !in t.filename && '\0' !in t.defaultType && '\0' !in u.filename && '\0' !in u.defaultType
    requires KeyOf(t) == KeyOf(u)
    ensures t == u
  {
    assert KeyOf(t) == t.filename + "\0" + (t.path + "\0" + t.defaultType);
    assert KeyOf(u) == u.filename + "\0" + (u.path + "\0" + u.defaultType);
    FirstPart(t.filename, t.path + "\0" + t.defaultType, u.filename, u.path + "\0" + u.defaultType);
    LastPart(t.path, t.defaultType, u.path, u.defaultType);
  }

  lemma FirstPart(a: string, x: string, b: string, y: string)
    requires '\0' !in a && '\0' !in b
    requires a + "\0" + x == b + "\0" + y
    ensures a == b && x == y
  {
    var s := a + "\0" + x;
    assert s[|a|] == '\0' && s[|b|] == '\0';
    assert forall k :: 0 <= k < |a| ==> s[k] == a[k];
    assert forall k :: 0 <= k < |b| ==> s[k] == b[k];
    assert s[..|a|] == a && s[..|b|] == b && s[|a| + 1..] == x && s[|b| + 1..] == y;
  }

  lemma LastPart(x: string, a: string, y: string, b: string)
    requires '\0' !in a && '\0' !in b
    requires x + "\0" + a == y + "\0" + b
    ensures x == y && a == b
  {
    var s := x + "\0" + a;
    assert s[|x|] == '\0' && s[|y|] == '\0';
    assert forall k :: |x| < k < |s| ==> s[k] == a[k - |x| - 1];
    assert forall k :: |y| < k < |s| ==> s[k] == b[k - |y| - 1];
    assert s[..|x|] == x && s[..|y|] == y && s[|x| + 1..] == a && s[|y| + 1..] == b;
  }

  /** Two codes whose different files share a key are in one group: one of them is misplaced. */
  lemma SharedMeansMisplaced(m: map<string, Target>, key: Target -> string, out: seq<Group>, c: string, d: string)
    requires Blocks(m, key, out) && c in m && d in m && key(m[c]) == key(m[d]) && m[c] != m[d]
    ensures exists g, x :: g in out && x in g.codes && x in m && m[x] != g.target
  {
    var g :| g in out && c in g.codes;
    assert Block(m, key, g);
    assert d in g.codes;
  }

  const LEFT: File := File("404", "a\0b", "c", "html")
  const RIGHT: File := File("500", "a", "b\0c", "html")
  const NUL_FILES: Files := map["left" := LEFT, "right" := RIGHT]

  function NulPages(serverID: string): seq<Page> {
    [Page(true, serverID, "*", "left"), Page(true, serverID, "*", "right")]
  }

  /** A page whose file is well formed as it is, for one code. */
  lemma OneCodeResolved(page: Page, files: Files, code: string)
    requires page.fileID in files && IsCode(code) && files[page.fileID].errorCode == code
    requires var f := files[page.fileID];
             Trimmed(f.filename) && Trimmed(f.path) && GoodFilename(f.filename) && GoodPath(f.path)
               && f.responseType == "html"
    ensures var f, r := files[page.fileID], Resolved(page, files);
            && r.Some? && r.value.target == Target(f.filename, f.path, "text/html")
            && forall c :: c in r.value.codes <==> c == code
  {
    var f := files[page.fileID];
    assert Join([code], " ") == code;
    JoinedCodesParse([code]);
    ParsedCodesAre(code);
    TrimSpaceTrimmed(f.filename);
    TrimSpaceTrimmed(f.path);
    HtmlType();
  }

  lemma HtmlType()
    ensures DefaultType("html") == "text/html"
  {
    TrimSpaceTrimmed("html");
    assert ToLower("html") == "html";
  }

  lemma NulNamesAreGood()
    ensures GoodFilename(LEFT.filename) && GoodPath(LEFT.path) && GoodFilename(RIGHT.filename) && GoodPath(RIGHT.path)
    ensures Trimmed(LEFT.filename) && Trimmed(LEFT.path) && Trimmed(RIGHT.filename) && Trimmed(RIGHT.path)
    ensures IsCode("404") && IsCode("500") && "404" != "500"
  {
    assert '.' in "..";
    LacksChar("a\0b", "..", '.');
    LacksChar("a", "..", '.');
    assert "404"[0] != "500"[0];
  }

  lemma NulLayer(serverID: string)
    ensures var layer := LayerOf(NulPages(serverID), serverID, "*", NUL_FILES);
            && LastSends(layer, 0, "404", Target("a\0b", "c", "text/html"))
            && LastSends(layer, 1, "500", Target("a", "b\0c", "text/html"))
  {
    NulNamesAreGood();
    assert |"left"| != |"right"|;
    OneCodeResolved(NulPages(serverID)[0], NUL_FILES, "404");
    OneCodeResolved(NulPages(serverID)[1], NUL_FILES, "500");
  }

  lemma NoOwnPages(serverID: string, siteID: nat, code: string)
    ensures !Covered(LayerOf(NulPages(serverID), serverID, Itoa(siteID), NUL_FILES), code)
  {
    ItoaIsDigits(siteID);
    assert '*' in "*";
  }

  /** With NUL in file names: two well-formed files, two pages for every site, and in whatever way
      the codes are grouped one of them is sent to the other's file. */
  lemma SharedKeyMisplacesACode(serverID: string, siteID: nat, out: seq<Group>)
    requires Blocks(Merged(LayerOf(NulPages(serverID), serverID, "*", NUL_FILES),
                           LayerOf(NulPages(serverID), serverID, Itoa(siteID), NUL_FILES)), KeyOf, out)
    ensures var m := Merged(LayerOf(NulPages(serverID), serverID, "*", NUL_FILES),
                            LayerOf(NulPages(serverID), serverID, Itoa(siteID), NUL_FILES));
            exists g, x :: g in out && x in g.codes && x in m && m[x] != g.target
  {
    var all := LayerOf(NulPages(serverID), serverID, "*", NUL_FILES);
    var own := LayerOf(NulPages(serverID), serverID, Itoa(siteID), NUL_FILES);
    NulLayer(serverID);
    NoOwnPages(serverID, siteID, "404");
    NoOwnPages(serverID, siteID, "500");
    MergedIsChosen(all, own, "404", Target("a\0b", "c", "text/html"));
    MergedIsChosen(all, own, "500", Target("a", "b\0c", "text/html"));
    NulKeys();
    SharedMeansMisplaced(Merged(all, own), KeyOf, out, "404", "500");
  }

  lemma NulKeys()
    ensures var t, u := Target("a\0b", "c", "text/html"), Target("a", "b\0c", "text/html");
            KeyOf(t) == KeyOf(u) && t != u
  {
    var t, u := Target("a\0b", "c", "text/html"), Target("a", "b\0c", "text/html");
    assert KeyOf(t) == "a\0b\0c\0text/html" == KeyOf(u);
    assert |t.filename| != |u.filename|;
  }
}
