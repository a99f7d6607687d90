/** The SEARCH/REPLACE grammar of model patches: the normaliser accepts marker
    variants and writes canonical blocks. Carriage returns are outside the model. */
module PatchGrammar {
  import opened Common
  import opened Texts

  const MAX_BLOCKS := 20

  datatype Block = Block(search: string, replace: string)

  // ---- marker lines ----

  predicate IsBlank(c: char) {
    c == ' ' || c == '\t'
  }

  predicate AllBlank(s: string) {
    forall c :: c in s ==> IsBlank(c)
  }

  function SkipBlanks(s: string): string {
    if s != "" && IsBlank(s[0]) then SkipBlanks(s[1..]) else s
  }

  function RunLength(s: string, c: char): (n: nat)
    ensures n <= |s|
  {
    if s != "" && s[0] == c then 1 + RunLength(s[1..], c) else 0
  }

  /** Four to seven marker characters after optional blanks; what follows them. */
  function AfterMarker(line: string, c: char): Option<string> {
    var s := SkipBlanks(line);
    var n := RunLength(s, c);
    if 4 <= n <= 7 then Some(s[n..]) else None
  }

  /** A marker, at least one blank, the word, and blanks up to the line end. */
  predicate IsWordMarker(line: string, c: char, word: string) {
    var rest := AfterMarker(line, c);
    && rest.Some? && rest.value != "" && IsBlank(rest.value[0])
    && var w := SkipBlanks(rest.value);
    && word <= w && AllBlank(w[|word|..])
  }

  predicate IsOpen(line: string) { IsWordMarker(line, '<', "SEARCH") }

  predicate IsMiddle(line: string) {
    var rest := AfterMarker(line, '=');
    rest.Some? && AllBlank(rest.value)
  }

  predicate IsClose(line: string) { IsWordMarker(line, '>', "REPLACE") }

  const OPEN := "<<<< SEARCH"
  const MIDDLE := "===="
  const CLOSE := ">>>> REPLACE"

  lemma {:induction false} MarkerRun(c: char, n: nat, rest: string)
    requires rest == "" || rest[0] != c
    ensures RunLength(seq(n, _ => c) + rest, c) == n
  {
    if n == 0 {
      assert seq(0, _ => c) + rest == rest;
    } else {
      MarkerRun(c, n - 1, rest);
      assert (seq(n, _ => c) + rest)[1..] == seq(n - 1, _ => c) + rest;
    }
  }

  lemma MarkerOfFour(line: string, c: char, rest: string)
    requires line == seq(4, _ => c) + rest && !IsBlank(c) && (rest == "" || rest[0] != c)
    ensures AfterMarker(line, c) == Some(rest)
  {
    MarkerRun(c, 4, rest);
    assert SkipBlanks(line) == line && line[4..] == rest;
  }

  lemma CanonicalMarkers()
    ensures IsOpen(OPEN) && IsMiddle(MIDDLE) && IsClose(CLOSE)
    ensures !IsClose("") && !IsMiddle("")
  {
    hide AfterMarker;
    WordMarker(OPEN, '<', "SEARCH");
    WordMarker(CLOSE, '>', "REPLACE");
    MarkerOfFour(MIDDLE, '=', "");
    NoMarker('>');
    NoMarker('=');
  }

  lemma NoMarker(c: char)
    ensures AfterMarker("", c).None?
  {
  }

  lemma WordMarker(line: string, c: char, word: string)
    requires line == seq(4, _ => c) + (" " + word) && !IsBlank(c) && c != ' ' && word != "" && !IsBlank(word[0])
    ensures IsWordMarker(line, c, word)
  {
    var rest := " " + word;
    MarkerOfFour(line, c, rest);
    hide AfterMarker;
    assert rest[1..] == word;
    assert SkipBlanks(word) == word;
    assert SkipBlanks(rest) == word;
    assert word[|word|..] == "";
  }

  // ---- the grammar ----

  /** The first line with the property; the number of lines if there is none. */
  function FirstIndex(lines: seq<string>, p: string -> bool): (k: nat)
    ensures k <= |lines|
    ensures k < |lines| ==> p(lines[k])
    ensures forall i :: 0 <= i < k ==> !p(lines[i])
  {
    if lines == [] || p(lines[0]) then 0 else 1 + FirstIndex(lines[1..], p)
  }

  lemma FirstIndexIs(lines: seq<string>, p: string -> bool, k: nat)
    requires k < |lines| && p(lines[k]) && forall i :: 0 <= i < k ==> !p(lines[i])
    ensures FirstIndex(lines, p) == k
  {
  }

  /** A block and the lines after it. */
  datatype Match = Match(block: Block, rest: seq<string>)

  /** The pattern's match at an opening line: the shortest search part that is
      followed by a middle line, then the shortest replacement before a closing line. */
  function MatchAt(lines: seq<string>): (r: Option<Match>)
    requires lines != []
    ensures r.Some? ==> |r.value.rest| < |lines|
  {
    var m := 1 + FirstIndex(lines[1..], IsMiddle);
    if m == |lines| then None
    else
      var body := lines[m + 1..];
      var k := FirstIndex(body, IsClose);
      if k == |body| then None else Some(Match(Block(Join(lines[1..m]), Join(body[..k])), body[k + 1..]))
  }

  datatype Found = Found(skipped: seq<string>, found: Match)

  /** The leftmost match, with the lines in front of it. */
  function FindMatch(lines: seq<string>): (r: Option<Found>)
    ensures r.Some? ==> |r.value.found.rest| < |lines|
  {
    if lines == [] then None
    else if IsOpen(lines[0]) && MatchAt(lines).Some? then Some(Found([], MatchAt(lines).value))
    else
      match FindMatch(lines[1..])
      case None => None
      case Some(f) => Some(Found([lines[0]] + f.skipped, f.found))
  }

  predicate BlankLines(lines: seq<string>) {
    forall l :: l in lines ==> Blank(l)
  }

  /** All blocks of a text; None when anything but blanks lies outside them. */
  function Parse(lines: seq<string>): Option<seq<Block>>
    decreases |lines|
  {
    match FindMatch(lines)
    case None => if BlankLines(lines) then Some([]) else None
    case Some(f) =>
      if !BlankLines(f.skipped) then None
      else
        match Parse(f.found.rest)
        case None => None
        case Some(later) => Some([f.found.block] + later)
  }

  function StripLeft(s: string): string {
    if s != "" && IsSpace(s[0]) then StripLeft(s[1..]) else s
  }

  function StripRight(s: string): string {
    if s != "" && IsSpace(s[|s| - 1]) then StripRight(s[..|s| - 1]) else s
  }

  function Strip(s: string): string {
    StripRight(StripLeft(s))
  }

  // ---- canonical text ----

  /** An empty search part has no line of its own. */
  function RenderBlock(b: Block): string {
    var search := if b.search == "" then "" else b.search + "\n";
    OPEN + ("\n" + (search + (MIDDLE + ("\n" + (b.replace + ("\n" + CLOSE))))))
  }

  function Render(blocks: seq<Block>): string {
    if blocks == [] then ""
    else if |blocks| == 1 then RenderBlock(blocks[0])
    else RenderBlock(blocks[0]) + ("\n" + Render(blocks[1..]))
  }

  function BlockLines(b: Block): seq<string> {
    [OPEN] + (if b.search == "" then [] else Lines(b.search)) + [MIDDLE] + Lines(b.replace) + [CLOSE]
  }

  function AllLines(blocks: seq<Block>): seq<string> {
    if blocks == [] then [] else BlockLines(blocks[0]) + AllLines(blocks[1..])
  }

  /** `_normalize_patch_grammar`; None is the grammar error. */
  function Normalize(text: string): Option<string> {
    match Parse(Lines(Strip(text)))
    case None => None
    case Some(blocks) => if 1 <= |blocks| <= MAX_BLOCKS then Some(Render(blocks)) else None
  }

  method NormalizePatch(text: string) returns (r: Option<string>)
    ensures r == Normalize(text)
  {
    var rest := Lines(Strip(text));
    ghost var all := rest;
    var blocks: seq<Block> := [];
    var found := FindMatch(rest);
    assert forall later: seq<Block> :: [] + later == later;
    while found.Some?
      invariant found == FindMatch(rest)
      invariant Parse(all) == match Parse(rest) case None => None case Some(later) => Some(blocks + later)
      decreases |rest|
    {
      if !BlankLines(found.value.skipped) { return None; }
      ghost var earlier, parsed := blocks, Parse(rest);
      blocks := blocks + [found.value.found.block];
      rest := found.value.found.rest;
      assert forall later :: earlier + ([found.value.found.block] + later) == blocks + later;
      found := FindMatch(rest);
    }
    if !BlankLines(rest) { return None; }
    assert blocks + [] == blocks;
    if !(1 <= |blocks| <= MAX_BLOCKS) { return None; }
    return Some(Render(blocks));
  }

  // ---- blocks the normaliser can produce ----

  predicate Sound(b: Block) {
    && (forall l :: l in Lines(b.search) ==> !IsMiddle(l))
    && (forall l :: l in Lines(b.replace) ==> !IsClose(l))
  }

  predicate AllSound(blocks: seq<Block>) {
    forall b :: b in blocks ==> Sound(b)
  }

  lemma JoinedLines(ls: seq<string>)
    requires forall l :: l in ls ==> OneLine(l)
    ensures Lines(Join(ls)) == if ls == [] then [""] else ls
  {
    if ls != [] {
      LinesJoin(ls);
    }
  }

  lemma MatchIsSound(lines: seq<string>)
    requires lines != [] && MatchAt(lines).Some? && forall l :: l in lines ==> OneLine(l)
    ensures Sound(MatchAt(lines).value.block)
    ensures forall l :: l in MatchAt(lines).value.rest ==> OneLine(l)
  {
    hide IsMiddle, IsClose, Lines, Join, OPEN, MIDDLE, CLOSE;
    var m := 1 + FirstIndex(lines[1..], IsMiddle);
    var body := lines[m + 1..];
    var k := FirstIndex(body, IsClose);
    CanonicalMarkers();
    JoinedLines(lines[1..m]);
    JoinedLines(body[..k]);
    forall l | l in lines[1..m]
      ensures !IsMiddle(l)
    {
      var i :| 0 <= i < m - 1 && l == lines[1..][i];
    }
  }

  lemma {:induction false} FoundIsSound(lines: seq<string>)
    requires FindMatch(lines).Some? && forall l :: l in lines ==> OneLine(l)
    ensures Sound(FindMatch(lines).value.found.block)
    ensures forall l :: l in FindMatch(lines).value.found.rest ==> OneLine(l)
  {
    hide MatchAt, IsOpen, Sound;
    if IsOpen(lines[0]) && MatchAt(lines).Some? {
      MatchIsSound(lines);
    } else {
      FoundIsSound(lines[1..]);
    }
  }

  lemma {:induction false} ParsedIsSound(lines: seq<string>)
    requires Parse(lines).Some? && forall l :: l in lines ==> OneLine(l)
    ensures AllSound(Parse(lines).value)
    decreases |lines|
  {
    hide FindMatch, Sound;
    if FindMatch(lines).Some? {
      FoundIsSound(lines);
      ParsedIsSound(FindMatch(lines).value.found.rest);
    }
  }

  // ---- canonical text parses to its blocks ----

  lemma Slices(a: string, search: seq<string>, b: string, replace: seq<string>, c: string, rest: seq<string>)
    ensures var lines, tail := [a] + search + [b] + replace + [c] + rest, replace + [c] + rest;
            && lines[1..] == search + [b] + tail && lines[|search| + 2..] == tail && lines[1..|search| + 1] == search
            && tail[..|replace|] == replace && tail[|replace| + 1..] == rest && tail[|replace|] == c
            && |lines| == |search| + 2 + |tail| && lines[0] == a
  {
  }

  /** How the lazy pattern matches these lines. */
  lemma MatchAtIs(a: string, search: seq<string>, b: string, replace: seq<string>, c: string, rest: seq<string>)
    requires IsMiddle(b) && IsClose(c)
    requires (forall l :: l in search ==> !IsMiddle(l)) && forall l :: l in replace ==> !IsClose(l)
    ensures MatchAt([a] + search + [b] + replace + [c] + rest) == Some(Match(Block(Join(search), Join(replace)), rest))
  {
    hide IsMiddle, IsClose, Join, FirstIndex;
    var lines, tail := [a] + search + [b] + replace + [c] + rest, replace + [c] + rest;
    Slices(a, search, b, replace, c, rest);
    FirstIndexIs(search + [b] + tail, IsMiddle, |search|);
    FirstIndexIs(tail, IsClose, |replace|);
  }

  lemma MatchCanonical(b: Block, rest: seq<string>)
    requires Sound(b)
    ensures MatchAt(BlockLines(b) + rest) == Some(Match(b, rest))
    ensures (BlockLines(b) + rest)[0] == OPEN
  {
    hide MatchAt, IsMiddle, IsClose, Lines, Join;
    var search := if b.search == "" then [] else Lines(b.search);
    CanonicalMarkers();
    JoinLines(b.search);
    JoinLines(b.replace);
    EmptyJoin();
    MatchAtIs(OPEN, search, MIDDLE, Lines(b.replace), CLOSE, rest);
  }

  lemma EmptyJoin()
    ensures Join([]) == ""
  {
  }

  lemma FindAtOpen(lines: seq<string>, m: Match)
    requires lines != [] && IsOpen(lines[0]) && MatchAt(lines) == Some(m)
    ensures FindMatch(lines) == Some(Found([], m))
  {
  }

  lemma ParseStep(lines: seq<string>, m: Match, later: seq<Block>)
    requires FindMatch(lines) == Some(Found([], m)) && Parse(m.rest) == Some(later)
    ensures Parse(lines) == Some([m.block] + later)
  {
    hide FindMatch;
  }

  lemma ParseNothing()
    ensures Parse([]) == Some([])
  {
  }

  lemma {:induction false} ParseCanonical(blocks: seq<Block>)
    requires AllSound(blocks)
    ensures Parse(AllLines(blocks)) == Some(blocks)
  {
    hide Parse, IsOpen, Sound, MatchAt, FindMatch, BlockLines;
    if blocks == [] {
      ParseNothing();
    } else {
      var rest := AllLines(blocks[1..]);
      ParseCanonical(blocks[1..]);
      CanonicalMarkers();
      MatchCanonical(blocks[0], rest);
      FindAtOpen(BlockLines(blocks[0]) + rest, Match(blocks[0], rest));
      ParseStep(AllLines(blocks), Match(blocks[0], rest), blocks[1..]);
      assert blocks == [blocks[0]] + blocks[1..];
    }
  }

  lemma RenderedBlockLines(b: Block)
    ensures Lines(RenderBlock(b)) == BlockLines(b)
  {
    hide Lines;
    var last := b.replace + ("\n" + CLOSE);
    var tail := MIDDLE + ("\n" + last);
    assert OneLine(OPEN) && OneLine(MIDDLE) && OneLine(CLOSE);
    LinesOfFirst(CLOSE, "");
    LinesAppend(b.replace, CLOSE);
    LinesOfFirst(MIDDLE, last);
    if b.search == "" {
      LinesOfFirst(OPEN, tail);
      assert "" + tail == tail;
    } else {
      LinesAppend(b.search, tail);
      assert b.search + "\n" + tail == b.search + ("\n" + tail);
      LinesOfFirst(OPEN, b.search + ("\n" + tail));
    }
  }

  lemma {:induction false} RenderedLines(blocks: seq<Block>)
    requires blocks != []
    ensures Lines(Render(blocks)) == AllLines(blocks)
  {
    hide Lines, BlockLines, RenderBlock;
    RenderedBlockLines(blocks[0]);
    if |blocks| == 1 {
      assert AllLines(blocks[1..]) == [];
    } else {
      RenderedLines(blocks[1..]);
      LinesAppend(RenderBlock(blocks[0]), Render(blocks[1..]));
    }
  }

  lemma {:induction false} RenderEnds(blocks: seq<Block>)
    requires blocks != []
    ensures var t := Render(blocks); t != "" && t[0] == '<' && t[|t| - 1] == 'E'
  {
    if |blocks| > 1 {
      RenderEnds(blocks[1..]);
    }
  }

  lemma NothingToStrip(s: string)
    requires s != "" && !IsSpace(s[0]) && !IsSpace(s[|s| - 1])
    ensures Strip(s) == s
  {
  }

  /** Canonical text normalises to itself. */
  lemma CanonicalIsFixed(blocks: seq<Block>)
    requires AllSound(blocks) && 1 <= |blocks| <= MAX_BLOCKS
    ensures Normalize(Render(blocks)) == Some(Render(blocks))
  {
    hide Strip, Render, Parse, Lines, AllLines, Sound;
    RenderEnds(blocks);
    NothingToStrip(Render(blocks));
    RenderedLines(blocks);
    ParseCanonical(blocks);
  }

  /** Normalising twice is normalising once. */
  lemma NormalizeIdempotent(text: string)
    requires Normalize(text).Some?
    ensures Normalize(Normalize(text).value) == Normalize(text)
  {
    hide Strip, Parse;
    var lines := Lines(Strip(text));
    LinesAreOneLine(Strip(text));
    ParsedIsSound(lines);
    CanonicalIsFixed(Parse(lines).value);
  }
}
