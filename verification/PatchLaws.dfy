/** Which texts the patch grammar accepts, line by line, and what it reads from them. */
module PatchLaws {
  import opened Common
  import opened Texts
  import opened PatchGrammar

  // ---- marker lines ----

  predicate OnlyBlanks(s: string) {
    forall i :: 0 <= i < |s| ==> s[i] == ' ' || s[i] == '\t'
  }

  function Run(c: char, n: nat): string {
    seq(n, _ => c)
  }

  lemma {:induction false} BlanksSkipped(blanks: string, t: string)
    requires OnlyBlanks(blanks) && (t == "" || (t[0] != ' ' && t[0] != '\t'))
    ensures SkipBlanks(blanks + t) == t
  {
    if blanks == "" {
      assert blanks + t == t;
    } else {
      BlanksSkipped(blanks[1..], t);
      assert (blanks + t)[1..] == blanks[1..] + t;
    }
  }

  /** The blanks in front of a line, and what follows. */
  lemma {:induction false} BlanksInFront(line: string) returns (blanks: string)
    ensures OnlyBlanks(blanks) && line == blanks + SkipBlanks(line)
    ensures var t := SkipBlanks(line); t == "" || (t[0] != ' ' && t[0] != '\t')
  {
    if line != "" && (line[0] == ' ' || line[0] == '\t') {
      var later := BlanksInFront(line[1..]);
      blanks := [line[0]] + later;
      assert line == [line[0]] + line[1..];
    } else {
      blanks := "";
    }
  }

  lemma {:induction false} RunInFront(s: string, c: char)
    ensures var n := RunLength(s, c); s == Run(c, n) + s[n..] && (s[n..] == "" || s[n..][0] != c)
  {
    if s != "" && s[0] == c {
      RunInFront(s[1..], c);
      var n := RunLength(s[1..], c);
      assert s == [c] + s[1..] && Run(c, n + 1) == [c] + Run(c, n);
      assert s[1..][n..] == s[n + 1..];
    } else {
      assert Run(c, 0) == "";
    }
  }

  /** Four to seven marker characters and no more. */
  lemma AfterMarkerExactly(blanks: string, c: char, n: nat, t: string)
    requires OnlyBlanks(blanks) && c != ' ' && c != '\t' && n > 0 && (t == "" || t[0] != c)
    ensures AfterMarker(blanks + (Run(c, n) + t), c) == if 4 <= n <= 7 then Some(t) else None
  {
    var s := Run(c, n) + t;
    assert s[0] == c;
    BlanksSkipped(blanks, s);
    MarkerRun(c, n, t);
    assert s[n..] == t;
  }

  /** A marker line, cut into its parts. */
  datatype Marker = Marker(indent: string, count: nat, gap: string, tail: string)

  predicate Spells(line: string, m: Marker, c: char, word: string) {
    && OnlyBlanks(m.indent) && OnlyBlanks(m.gap) && OnlyBlanks(m.tail)
    && 4 <= m.count <= 7
    && line == m.indent + (Run(c, m.count) + (m.gap + (word + m.tail)))
  }

  /** An opening line: four to seven `<`, at least one blank, SEARCH, and blanks around. */
  lemma OpenExactly(line: string)
    ensures IsOpen(line) <==> exists m :: Spells(line, m, '<', "SEARCH") && m.gap != ""
  {
    WordExactly(line, '<', "SEARCH");
  }

  /** A closing line: four to seven `>`, at least one blank, REPLACE, and blanks around. */
  lemma CloseExactly(line: string)
    ensures IsClose(line) <==> exists m :: Spells(line, m, '>', "REPLACE") && m.gap != ""
  {
    WordExactly(line, '>', "REPLACE");
  }

  /** A middle line: four to seven `=` and blanks around. */
  lemma MiddleExactly(line: string)
    ensures IsMiddle(line) <==> exists m :: Spells(line, m, '=', "")
  {
    hide AfterMarker, Spells, AllBlank, OnlyBlanks;
    if IsMiddle(line) {
      var m := MarkerParts(line, '=');
      BlanksAgree(AfterMarker(line, '=').value);
      SpelledMiddle(line, m, AfterMarker(line, '=').value);
    }
    if m: Marker :| Spells(line, m, '=', "") {
      MiddleSpelled(line, m);
      BlanksAgree(m.gap + m.tail);
    }
  }

  lemma WordExactly(line: string, c: char, word: string)
    requires c != ' ' && c != '\t' && word != "" && word[0] != ' ' && word[0] != '\t'
    ensures IsWordMarker(line, c, word) <==> exists m :: Spells(line, m, c, word) && m.gap != ""
  {
    hide AfterMarker, Spells, AllBlank, OnlyBlanks;
    if IsWordMarker(line, c, word) {
      var m := MarkerParts(line, c);
      var rest := AfterMarker(line, c).value;
      var gap := BlanksInFront(rest);
      var w := SkipBlanks(rest);
      BlanksAgree(w[|word|..]);
      SpelledWord(line, m, c, word, gap, w[|word|..]);
      assert gap != "" by { hide *; GapOpens(rest, gap); }
    }
    if m: Marker :| Spells(line, m, c, word) && m.gap != "" {
      WordSpelled(line, m, c, word);
      BlanksAgree(m.tail);
    }
  }

  lemma GapOpens(rest: string, gap: string)
    requires rest != "" && IsBlank(rest[0]) && rest == gap + SkipBlanks(rest)
    requires SkipBlanks(rest) == "" || (SkipBlanks(rest)[0] != ' ' && SkipBlanks(rest)[0] != '\t')
    ensures gap != ""
  {
    hide SkipBlanks;
    assert "" + SkipBlanks(rest) == SkipBlanks(rest);
  }

  lemma BlanksAgree(s: string)
    ensures AllBlank(s) <==> OnlyBlanks(s)
  {
    if AllBlank(s) {
      assert forall i :: 0 <= i < |s| ==> s[i] in s;
    }
  }

  lemma MarkerParts(line: string, c: char) returns (m: Marker)
    requires AfterMarker(line, c).Some?
    ensures OnlyBlanks(m.indent) && 4 <= m.count <= 7
    ensures line == m.indent + (Run(c, m.count) + AfterMarker(line, c).value)
  {
    var indent := BlanksInFront(line);
    var s := SkipBlanks(line);
    RunInFront(s, c);
    m := Marker(indent, RunLength(s, c), "", "");
  }

  lemma SpelledMiddle(line: string, m: Marker, rest: string)
    requires OnlyBlanks(m.indent) && 4 <= m.count <= 7 && OnlyBlanks(rest)
    requires line == m.indent + (Run('=', m.count) + rest)
    ensures exists m :: Spells(line, m, '=', "")
  {
    assert "" + ("" + rest) == rest;
    assert Spells(line, m.(gap := "", tail := rest), '=', "");
  }

  lemma SpelledWord(line: string, m: Marker, c: char, word: string, gap: string, tail: string)
    requires OnlyBlanks(m.indent) && 4 <= m.count <= 7 && OnlyBlanks(gap) && OnlyBlanks(tail)
    requires line == m.indent + (Run(c, m.count) + (gap + (word + tail)))
    ensures Spells(line, m.(gap := gap, tail := tail), c, word)
  {
  }

  lemma MiddleSpelled(line: string, m: Marker)
    requires Spells(line, m, '=', "")
    ensures AfterMarker(line, '=') == Some(m.gap + m.tail) && OnlyBlanks(m.gap + m.tail)
  {
    hide AfterMarker, Run;
    assert m.gap + ("" + m.tail) == m.gap + m.tail;
    AfterMarkerExactly(m.indent, '=', m.count, m.gap + m.tail);
  }

  lemma WordSpelled(line: string, m: Marker, c: char, word: string)
    requires c != ' ' && c != '\t' && word != "" && word[0] != ' ' && word[0] != '\t'
    requires Spells(line, m, c, word) && m.gap != ""
    ensures var rest := AfterMarker(line, c);
            && rest.Some? && rest.value != "" && IsBlank(rest.value[0])
            && SkipBlanks(rest.value) == word + m.tail && (word + m.tail)[|word|..] == m.tail && OnlyBlanks(m.tail)
  {
    hide AfterMarker, Run, SkipBlanks;
    AfterMarkerExactly(m.indent, c, m.count, m.gap + (word + m.tail));
    BlanksSkipped(m.gap, word + m.tail);
  }

  // ---- texts ----

  /** One block of a text: what stands in front of it, its lines, and the lines after it. */
  datatype Laying = Laying(gap: seq<string>, open: string, search: seq<string>, middle: string,
                           replace: seq<string>, close: string, rest: seq<string>)

  predicate LaysFirst(lines: seq<string>, x: Laying) {
    && lines == x.gap + ([x.open] + x.search + [x.middle] + x.replace + [x.close] + x.rest)
    && (forall l :: l in x.gap ==> Blank(l))
    && IsOpen(x.open) && IsMiddle(x.middle) && IsClose(x.close)
    && (forall l :: l in x.search ==> !IsMiddle(l))
    && (forall l :: l in x.replace ==> !IsClose(l))
  }

  /** The lines are these blocks with nothing but blank lines around them: a search part ends at its first
      middle line and a replacement at its first closing line. */
  ghost predicate Laid(lines: seq<string>, blocks: seq<Block>)
    decreases |blocks|
  {
    if blocks == [] then forall l :: l in lines ==> Blank(l)
    else
      exists x: Laying :: && LaysFirst(lines, x)
                          && blocks[0] == Block(Join(x.search), Join(x.replace))
                          && Laid(x.rest, blocks[1..])
  }

  lemma OpenIsNotBlank(l: string)
    ensures IsOpen(l) ==> !Blank(l)
  {
    hide Blank, IsOpen, Spells;
    OpenExactly(l);
    if IsOpen(l) {
      var m: Marker :| Spells(l, m, '<', "SEARCH") && m.gap != "";
      SpelledIsNotBlank(l, m);
    }
  }

  lemma SpelledIsNotBlank(l: string, m: Marker)
    requires Spells(l, m, '<', "SEARCH")
    ensures !Blank(l)
  {
    assert l[|m.indent|] == '<';
  }

  lemma {:induction false} FindPasses(gap: seq<string>, lines: seq<string>)
    requires forall l :: l in gap ==> Blank(l)
    ensures FindMatch(gap + lines) ==
      match FindMatch(lines) case None => None case Some(f) => Some(Found(gap + f.skipped, f.found))
  {
    hide MatchAt, IsOpen, Blank;
    if gap == [] {
      assert [] + lines == lines && forall s: seq<string> :: [] + s == s;
    } else {
      OpenIsNotBlank(gap[0]);
      FindPasses(gap[1..], lines);
      assert (gap + lines)[1..] == gap[1..] + lines;
      assert forall s: seq<string> :: [gap[0]] + (gap[1..] + s) == gap + s;
    }
  }

  lemma {:induction false} FindLays(lines: seq<string>) returns (x: Laying)
    requires FindMatch(lines).Some?
    ensures var f := FindMatch(lines).value;
            && lines == x.gap + ([x.open] + x.search + [x.middle] + x.replace + [x.close] + x.rest)
            && x.gap == f.skipped && x.rest == f.found.rest
            && f.found.block == Block(Join(x.search), Join(x.replace))
            && IsOpen(x.open) && IsMiddle(x.middle) && IsClose(x.close)
            && (forall l :: l in x.search ==> !IsMiddle(l))
            && (forall l :: l in x.replace ==> !IsClose(l))
  {
    hide IsOpen, IsMiddle, IsClose, Join;
    if IsOpen(lines[0]) && MatchAt(lines).Some? {
      x := MatchLays(lines);
    } else {
      hide MatchAt;
      var y := FindLays(lines[1..]);
      x := y.(gap := [lines[0]] + y.gap);
      assert lines == [lines[0]] + lines[1..];
    }
  }

  lemma NoneBefore(lines: seq<string>, p: string -> bool)
    ensures forall l :: l in lines[..FirstIndex(lines, p)] ==> !p(l)
  {
  }

  lemma MatchLays(lines: seq<string>) returns (x: Laying)
    requires lines != [] && MatchAt(lines).Some?
    ensures var f := MatchAt(lines).value;
            && lines == [x.open] + x.search + [x.middle] + x.replace + [x.close] + x.rest
            && x.gap == [] && x.open == lines[0] && x.rest == f.rest
            && f.block == Block(Join(x.search), Join(x.replace))
            && IsMiddle(x.middle) && IsClose(x.close)
            && (forall l :: l in x.search ==> !IsMiddle(l))
            && (forall l :: l in x.replace ==> !IsClose(l))
  {
    hide IsOpen, IsMiddle, IsClose, Join, FirstIndex;
    var m := 1 + FirstIndex(lines[1..], IsMiddle);
    var body := lines[m + 1..];
    var k := FirstIndex(body, IsClose);
    x := Laying([], lines[0], lines[1..m], lines[m], body[..k], body[k], body[k + 1..]);
    assert lines == [lines[0]] + lines[1..m] + [lines[m]] + body;
    assert body == body[..k] + [body[k]] + body[k + 1..];
    assert lines[1..m] == lines[1..][..m - 1];
    NoneBefore(lines[1..], IsMiddle);
    NoneBefore(body, IsClose);
  }

  /** The parser reads these blocks exactly when the lines are laid so. */
  lemma {:induction false} ParsesExactly(lines: seq<string>, blocks: seq<Block>)
    ensures Parse(lines) == Some(blocks) <==> Laid(lines, blocks)
    decreases |blocks|, |lines|
  {
    hide Parse, FindMatch, LaysFirst, Laid;
    if Parse(lines) == Some(blocks) {
      ParsedIsLaid(lines, blocks);
    }
    if Laid(lines, blocks) {
      LaidIsParsed(lines, blocks);
    }
  }

  lemma {:induction false} ParsedIsLaid(lines: seq<string>, blocks: seq<Block>)
    requires Parse(lines) == Some(blocks)
    ensures Laid(lines, blocks)
    decreases |blocks|
  {
    hide FindMatch, LaysFirst;
    if FindMatch(lines).Some? {
      var x := FindLays(lines);
      FirstLaid(lines, x);
      assert blocks[1..] == Parse(x.rest).value;
      ParsedIsLaid(x.rest, blocks[1..]);
    }
  }

  lemma FirstLaid(lines: seq<string>, x: Laying)
    requires lines == x.gap + ([x.open] + x.search + [x.middle] + x.replace + [x.close] + x.rest)
    requires BlankLines(x.gap) && IsOpen(x.open) && IsMiddle(x.middle) && IsClose(x.close)
    requires (forall l :: l in x.search ==> !IsMiddle(l)) && (forall l :: l in x.replace ==> !IsClose(l))
    ensures LaysFirst(lines, x)
  {
  }

  lemma {:induction false} LaidIsParsed(lines: seq<string>, blocks: seq<Block>)
    requires Laid(lines, blocks)
    ensures Parse(lines) == Some(blocks)
    decreases |blocks|
  {
    hide FindMatch, LaysFirst, Blank;
    if blocks == [] {
      BlankParses(lines);
    } else {
      var x: Laying :| && LaysFirst(lines, x)
                       && blocks[0] == Block(Join(x.search), Join(x.replace)) && Laid(x.rest, blocks[1..]);
      LaidIsParsed(x.rest, blocks[1..]);
      FirstFound(lines, x);
      assert blocks == [blocks[0]] + blocks[1..];
    }
  }

  lemma BlankParses(lines: seq<string>)
    requires forall l :: l in lines ==> Blank(l)
    ensures Parse(lines) == Some([])
  {
    hide Blank;
    FindPasses(lines, []);
    assert lines + [] == lines;
  }

  lemma FirstFound(lines: seq<string>, x: Laying)
    requires LaysFirst(lines, x)
    ensures FindMatch(lines) == Some(Found(x.gap, Match(Block(Join(x.search), Join(x.replace)), x.rest)))
    ensures BlankLines(x.gap)
  {
    hide MatchAt, Blank, IsOpen, IsMiddle, IsClose;
    var body := [x.open] + x.search + [x.middle] + x.replace + [x.close] + x.rest;
    FindPasses(x.gap, body);
    MatchAtIs(x.open, x.search, x.middle, x.replace, x.close, x.rest);
    assert x.gap + [] == x.gap;
  }

  /** The normaliser answers exactly for one to twenty blocks with nothing but blanks around them,
      and then with their canonical text. */
  lemma NormalizesExactly(text: string, answer: string)
    ensures Normalize(text) == Some(answer) <==>
      exists blocks :: 1 <= |blocks| <= 20 && Laid(Lines(Strip(text)), blocks) && answer == Render(blocks)
  {
    hide Strip, Lines, Render, Parse, Laid;
    var lines := Lines(Strip(text));
    forall blocks: seq<Block>
      ensures Parse(lines) == Some(blocks) <==> Laid(lines, blocks)
    {
      ParsesExactly(lines, blocks);
    }
  }

  /** The canonical text of one block. */
  lemma CanonicalText(search: string, replace: string)
    requires search != ""
    ensures Render([Block(search, replace)]) == "<<<< SEARCH\n" + search + "\n====\n" + replace + "\n>>>> REPLACE"
  {
  }
}
