/** Applying a normalised patch: the edit pattern reads the blocks back, and
    each block replaces the one place its search part is found at. */
module PatchEngine {
  import opened Common
  import opened Texts
  import opened PatchGrammar

  const OPEN_LINE := OPEN + "\n"
  const MIDDLE_LINE := "\n" + MIDDLE + "\n"

  /** All matches of the edit pattern, left to right. The search part is as
      short as possible, then the replacement; one newline before the closing
      marker belongs to neither. */
  function EditBlocks(text: string): seq<Block>
    decreases |text|
  {
    match Find(text, OPEN_LINE)
    case None => []
    case Some(i) => BlocksOpened(text[i + |OPEN_LINE|..])
  }

  /** The matches from an opening marker on. */
  function BlocksOpened(body: string): seq<Block>
    decreases |body|
  {
    match Find(body, MIDDLE_LINE)
    case None => []
    case Some(j) =>
      var tail := body[j + |MIDDLE_LINE|..];
      match Find(tail, CLOSE)
      case None => []
      case Some(k) =>
        var cut := if k > 0 && tail[k - 1] == '\n' then k - 1 else k;
        [Block(body[..j], tail[..cut])] + EditBlocks(tail[k + |CLOSE|..])
  }

  // ---- the edit pattern on canonical text ----

  /** The blocks the pattern reads back as written. */
  predicate ReadsBack(b: Block) {
    b.search != "" && !Contains(b.replace, CLOSE)
  }

  lemma OccurrenceAt(s: string, pattern: string, k: nat)
    requires OccursAt(s, pattern, k)
    ensures k + |pattern| <= |s| && forall i :: k <= i < k + |pattern| ==> s[i] == pattern[i - k]
  {
    forall i | k <= i < k + |pattern|
      ensures s[i] == pattern[i - k]
    {
      assert s[i] == s[k..k + |pattern|][i - k];
    }
  }

  /** A newline, a line and a newline that start inside `search`, which a
      newline follows: the line ends inside too. */
  lemma LineFits(search: string, line: string, pattern: string, tail: string, k: nat)
    requires OneLine(line) && pattern == "\n" + line + "\n"
    requires k < |search| && OccursAt(search + pattern + tail, pattern, k)
    ensures k + |line| + 1 <= |search| && search[k] == '\n' && search[k + 1..k + |line| + 1] == line
    ensures k + |line| + 1 < |search| ==> search[k + |line| + 1] == '\n'
  {
    var s, n := search + pattern + tail, |line|;
    OccurrenceAt(s, pattern, k);
    assert s[|search|] == pattern[0] == '\n';
    assert forall i :: 0 <= i < n ==> pattern[i + 1] == line[i];
    forall i | 0 <= i < n
      ensures search[k + 1 + i] == line[i]
    {
      assert search[k + 1 + i] == s[k + 1 + i] == pattern[1 + i];
    }
    assert search[k + 1..k + n + 1] == line;
    assert pattern[n + 1] == '\n' && s[k + n + 1] == pattern[n + 1];
  }

  lemma LineInside(search: string, line: string, pattern: string, tail: string, k: nat)
    requires OneLine(line) && pattern == "\n" + line + "\n"
    requires k < |search| && OccursAt(search + pattern + tail, pattern, k)
    ensures line in Lines(search)
  {
    hide *;
    LineFits(search, line, pattern, tail, k);
    StretchIsLine(search, k + 1, k + |line| + 1);
  }

  lemma FindMiddle(search: string, tail: string)
    requires forall l :: l in Lines(search) ==> !IsMiddle(l)
    ensures Find(search + MIDDLE_LINE + tail, MIDDLE_LINE) == Some(|search|)
  {
    CanonicalMarkers();
    hide IsMiddle, Lines;
    FindLine(search, MIDDLE, MIDDLE_LINE, tail);
  }

  lemma FindLine(search: string, line: string, pattern: string, tail: string)
    requires OneLine(line) && pattern == "\n" + line + "\n" && line !in Lines(search)
    ensures Find(search + pattern + tail, pattern) == Some(|search|)
  {
    var s := search + pattern + tail;
    hide Lines;
    forall k | 0 <= k < |search|
      ensures !OccursAt(s, pattern, k)
    {
      if OccursAt(s, pattern, k) {
        LineInside(search, line, pattern, tail, k);
      }
    }
    assert s[|search|..|search| + |pattern|] == pattern;
    FoundFirst(s, pattern, |search|);
  }

  /** A closing marker in front of the block's own lies inside the replacement. */
  lemma CloseInside(replace: string, rest: string, k: nat)
    requires OccursAt(replace + ("\n" + (CLOSE + rest)), CLOSE, k) && k <= |replace|
    ensures OccursAt(replace, CLOSE, k)
  {
    var s := replace + ("\n" + (CLOSE + rest));
    var w := s[k..k + 12];
    assert w == CLOSE && s[|replace|] == '\n';
    assert '\n' !in CLOSE;
    assert forall i :: 0 <= i < 12 ==> s[k + i] == w[i] && w[i] in w;
    assert k + 12 <= |replace|;
    assert replace[k..k + 12] == w;
  }

  lemma FindClose(replace: string, rest: string)
    ensures var s := replace + ("\n" + (CLOSE + rest));
            if Contains(replace, CLOSE) then Find(s, CLOSE).Some? && Find(s, CLOSE).value < |replace|
            else Find(s, CLOSE) == Some(|replace| + 1)
  {
    var s := replace + ("\n" + (CLOSE + rest));
    assert s[|replace| + 1..|replace| + 13] == CLOSE;
    if Contains(replace, CLOSE) {
      var k :| 0 <= k <= |replace| && OccursAt(replace, CLOSE, k);
      assert s[k..k + 12] == replace[k..k + 12];
      assert OccursAt(s, CLOSE, k);
    } else {
      forall k | 0 <= k <= |replace|
        ensures !OccursAt(s, CLOSE, k)
      {
        if OccursAt(s, CLOSE, k) {
          CloseInside(replace, rest, k);
        }
      }
      FoundFirst(s, CLOSE, |replace| + 1);
    }
  }

  lemma FindAtStart(pattern: string, rest: string)
    ensures Find(pattern + rest, pattern) == Some(0)
  {
    assert (pattern + rest)[0..|pattern|] == pattern;
    FoundFirst(pattern + rest, pattern, 0);
  }

  /** The text after `open` and the text after the middle line. */
  lemma EditUnfolds(body: string)
    ensures EditBlocks(OPEN_LINE + body) ==
            match Find(body, MIDDLE_LINE)
            case None => []
            case Some(j) =>
              var tail := body[j + |MIDDLE_LINE|..];
              match Find(tail, CLOSE)
              case None => []
              case Some(k) =>
                var cut := if k > 0 && tail[k - 1] == '\n' then k - 1 else k;
                [Block(body[..j], tail[..cut])] + EditBlocks(tail[k + |CLOSE|..])
  {
    hide EditBlocks, Find;
    EditOpens(body);
  }

  lemma EditOpens(body: string)
    ensures EditBlocks(OPEN_LINE + body) == BlocksOpened(body)
  {
    hide BlocksOpened, Find;
    FindAtStart(OPEN_LINE, body);
    assert (OPEN_LINE + body)[0 + |OPEN_LINE|..] == body;
  }

  lemma RenderedShape(b: Block, more: string)
    ensures b.search != "" ==>
              RenderBlock(b) + more == OPEN_LINE + (b.search + MIDDLE_LINE + (b.replace + ("\n" + (CLOSE + more))))
    ensures b.search == "" ==>
              RenderBlock(b) + more == OPEN_LINE + (MIDDLE + "\n" + (b.replace + ("\n" + (CLOSE + more))))
  {
  }

  /** A block that reads back, in front of anything. */
  lemma ReadBackOne(b: Block, more: string)
    requires Sound(b) && ReadsBack(b)
    ensures EditBlocks(RenderBlock(b) + more) == [b] + EditBlocks(more)
  {
    hide EditBlocks, Find, RenderBlock, Contains;
    var tail := b.replace + ("\n" + (CLOSE + more));
    var body := b.search + MIDDLE_LINE + tail;
    RenderedShape(b, more);
    EditUnfolds(body);
    FindMiddle(b.search, tail);
    FindClose(b.replace, more);
    Cuts(b.search, b.replace, more);
  }

  lemma Cuts(search: string, replace: string, more: string)
    ensures var tail := replace + ("\n" + (CLOSE + more));
            var body := search + MIDDLE_LINE + tail;
            && body[..|search|] == search && body[|search| + |MIDDLE_LINE|..] == tail
            && tail[|replace|] == '\n' && tail[..|replace|] == replace && tail[|replace| + 1 + |CLOSE|..] == more
  {
  }

  /** A block that does not: whatever the pattern finds first is another one. */
  lemma MisreadOne(b: Block, more: string)
    requires Sound(b) && !ReadsBack(b)
    ensures var found := EditBlocks(RenderBlock(b) + more); found == [] || found[0] != b
  {
    hide EditBlocks, RenderBlock;
    var tail := b.replace + ("\n" + (CLOSE + more));
    RenderedShape(b, more);
    if b.search == "" {
      var body := MIDDLE + "\n" + tail;
      EditUnfolds(body);
      assert body[0] == '=';
      assert !OccursAt(body, MIDDLE_LINE, 0) by {
        if OccursAt(body, MIDDLE_LINE, 0) {
          OccurrenceAt(body, MIDDLE_LINE, 0);
        }
      }
    } else {
      EditUnfolds(b.search + MIDDLE_LINE + tail);
      FindMiddle(b.search, tail);
      FindClose(b.replace, more);
      Cuts(b.search, b.replace, more);
      hide Find, Contains;
    }
  }

  lemma ShiftFind(t: string, pattern: string)
    requires pattern != "" && pattern[0] != '\n'
    ensures Find("\n" + t, pattern) == match Find(t, pattern) case None => None case Some(i) => Some(i + 1)
  {
    var s := "\n" + t;
    forall i | OccursAt(s, pattern, i)
      ensures i > 0 && OccursAt(t, pattern, i - 1)
    {
      OccurrenceAt(s, pattern, i);
      assert s[i] != '\n';
      assert t[i - 1..i - 1 + |pattern|] == s[i..i + |pattern|];
    }
    if Find(t, pattern).Some? {
      var i := Find(t, pattern).value;
      assert s[i + 1..i + 1 + |pattern|] == t[i..i + |pattern|];
      assert forall k :: 0 <= k < i + 1 ==> !OccursAt(s, pattern, k);
      FoundFirst(s, pattern, i + 1);
    }
  }

  lemma EditFrom(t: string)
    ensures EditBlocks(t) == match Find(t, OPEN_LINE)
                             case None => []
                             case Some(i) => EditBlocks(OPEN_LINE + t[i + |OPEN_LINE|..])
  {
    if Find(t, OPEN_LINE).Some? {
      var i := Find(t, OPEN_LINE).value;
      EditUnfolds(t[i + |OPEN_LINE|..]);
    }
  }

  /** A newline in front of the first block does not matter. */
  lemma SkipNewline(t: string)
    ensures EditBlocks("\n" + t) == EditBlocks(t)
  {
    hide EditBlocks;
    EditFrom(t);
    EditFrom("\n" + t);
    ShiftFind(t, OPEN_LINE);
    if Find(t, OPEN_LINE).Some? {
      var i := Find(t, OPEN_LINE).value;
      assert ("\n" + t)[i + 1 + |OPEN_LINE|..] == t[i + |OPEN_LINE|..];
    }
  }

  /** The edit pattern recovers from the normalised text exactly the pairs the
      normaliser found if and only if no search part is empty and no
      replacement contains the closing marker. */
  lemma {:induction false} RecoveredExactly(blocks: seq<Block>)
    requires AllSound(blocks) && blocks != []
    ensures EditBlocks(Render(blocks)) == blocks <==> forall b :: b in blocks ==> ReadsBack(b)
  {
    hide EditBlocks, RenderBlock, Sound, ReadsBack;
    var b, rest := blocks[0], blocks[1..];
    var more := if |blocks| == 1 then "" else "\n" + Render(rest);
    assert Render(blocks) == RenderBlock(b) + more by {
      if |blocks| == 1 {
        assert RenderBlock(b) + "" == RenderBlock(b);
      }
    }
    assert blocks == [b] + rest;
    if !ReadsBack(b) {
      MisreadOne(b, more);
    } else {
      ReadBackOne(b, more);
      if |blocks| == 1 {
        NothingToRead();
      } else {
        RecoveredExactly(rest);
        SkipNewline(Render(rest));
        if EditBlocks(Render(blocks)) == blocks {
          assert EditBlocks(Render(rest)) == ([b] + EditBlocks(Render(rest)))[1..] == rest;
        }
      }
    }
  }

  lemma NothingToRead()
    ensures EditBlocks("") == []
  {
  }

  // ---- applying the blocks ----

  datatype PatchError = NoBlocks | AnchorNotFound | AnchorNotUnique(occurrences: nat)

  datatype PatchResult = Patched(content: string, occurrences: nat) | Rejected(error: PatchError)

  /** `str.count`: occurrences that do not overlap. */
  function Count(s: string, pattern: string): nat
    decreases |s|
  {
    if pattern == "" then |s| + 1
    else
      match Find(s, pattern)
      case None => 0
      case Some(i) => 1 + Count(s[i + |pattern|..], pattern)
  }

  /** `str.replace` when the pattern counts once. */
  function ReplaceOnce(s: string, pattern: string, replacement: string): string
    requires Find(s, pattern).Some?
  {
    var i := Find(s, pattern).value;
    s[..i] + replacement + s[i + |pattern|..]
  }

  /** The replace loop. */
  function ApplyBlocks(content: string, blocks: seq<Block>, occurrences: nat): PatchResult
    decreases |blocks|
  {
    if blocks == [] then Patched(content, occurrences)
    else
      var n := Count(content, blocks[0].search);
      if n == 0 then Rejected(AnchorNotFound)
      else if n > 1 then Rejected(AnchorNotUnique(n))
      else
        CountedOnce(content, blocks[0].search);
        ApplyBlocks(ReplaceOnce(content, blocks[0].search, blocks[0].replace), blocks[1..], occurrences + n)
  }

  lemma CountedOnce(s: string, pattern: string)
    requires Count(s, pattern) > 0
    ensures Find(s, pattern).Some?
  {
    if pattern == "" {
      assert OccursAt(s, "", 0);
    }
  }

  /** A text file and the patch applied to it. */
  class TargetFile {
    var content: string

    constructor (content: string)
      ensures this.content == content
    {
      this.content := content;
    }

    /** `apply_patch` on an existing file: all blocks or none. */
    method ApplyPatch(patch: string) returns (r: PatchResult)
      modifies this
      ensures r == if EditBlocks(patch) == [] then Rejected(NoBlocks)
                   else ApplyBlocks(old(content), EditBlocks(patch), 0)
      ensures content == if r.Patched? then r.content else old(content)
      ensures r.Patched? ==> r.occurrences == |EditBlocks(patch)|
    {
      hide EditBlocks, Count, ReplaceOnce;
      var blocks := EditBlocks(patch);
      if blocks == [] { return Rejected(NoBlocks); }
      var fileContent, occurrencesBefore := content, 0;
      var k := 0;
      assert blocks[0..] == blocks;
      while k < |blocks|
        invariant 0 <= k <= |blocks| && occurrencesBefore == k && content == old(content)
        invariant ApplyBlocks(fileContent, blocks[k..], occurrencesBefore) == ApplyBlocks(content, blocks, 0)
      {
        var block := blocks[k];
        assert blocks[k..][0] == block && blocks[k..][1..] == blocks[k + 1..];
        var occurrences := Count(fileContent, block.search);
        if occurrences == 0 { return Rejected(AnchorNotFound); }
        if occurrences > 1 { return Rejected(AnchorNotUnique(occurrences)); }
        CountedOnce(fileContent, block.search);
        fileContent := ReplaceOnce(fileContent, block.search, block.replace);
        occurrencesBefore := occurrencesBefore + occurrences;
        k := k + 1;
      }
      content := fileContent;
      return Patched(fileContent, occurrencesBefore);
    }
  }

  // ---- what a count of one means ----

  ghost predicate OccursOnce(s: string, pattern: string) {
    exists i :: OccursAt(s, pattern, i) && forall k :: OccursAt(s, pattern, k) ==> k == i
  }

  /** The pattern starts and ends with the same shorter text. */
  predicate Bordered(pattern: string) {
    exists n | 0 < n < |pattern| :: pattern[..n] == pattern[|pattern| - n..]
  }

  lemma CountUnfolds(s: string, pattern: string, i: nat)
    requires pattern != "" && Find(s, pattern) == Some(i)
    ensures Count(s, pattern) == 1 + Count(s[i + |pattern|..], pattern)
  {
  }

  lemma CountNone(s: string, pattern: string)
    requires pattern != "" && Find(s, pattern).None?
    ensures Count(s, pattern) == 0
  {
  }

  lemma OccursLater(s: string, pattern: string, from: nat, k: nat)
    requires from <= |s| && OccursAt(s[from..], pattern, k)
    ensures OccursAt(s, pattern, from + k)
  {
    assert s[from + k..from + k + |pattern|] == s[from..][k..k + |pattern|];
  }

  lemma OccursInRest(s: string, pattern: string, from: nat, k: nat)
    requires from <= k && OccursAt(s, pattern, k)
    ensures OccursAt(s[from..], pattern, k - from)
  {
    assert s[from..][k - from..k - from + |pattern|] == s[k..k + |pattern|];
  }

  /** A single occurrence always counts once. */
  lemma OnceCountsOne(s: string, pattern: string)
    requires pattern != "" && OccursOnce(s, pattern)
    ensures Count(s, pattern) == 1
  {
    hide Count;
    var i :| OccursAt(s, pattern, i) && forall k :: OccursAt(s, pattern, k) ==> k == i;
    FoundFirst(s, pattern, i);
    var from := i + |pattern|;
    CountUnfolds(s, pattern, i);
    if Find(s[from..], pattern).Some? {
      hide OccursAt;
      OccursLater(s, pattern, from, Find(s[from..], pattern).value);
    }
    CountNone(s[from..], pattern);
  }

  /** A count of one means a unique anchor, in every file, exactly when the
      search text does not overlap with itself. */
  lemma CountOneIsUnique(pattern: string)
    requires pattern != ""
    ensures (forall s | Count(s, pattern) == 1 :: OccursOnce(s, pattern)) <==> !Bordered(pattern)
  {
    if Bordered(pattern) {
      var n :| 0 < n < |pattern| && pattern[..n] == pattern[|pattern| - n..];
      OverlapCountsOne(pattern, n);
    } else {
      forall s | Count(s, pattern) == 1
        ensures OccursOnce(s, pattern)
      {
        UnborderedOnce(s, pattern);
      }
    }
  }

  lemma OverlapCountsOne(pattern: string, n: nat)
    requires 0 < n < |pattern| && pattern[..n] == pattern[|pattern| - n..]
    ensures var s := pattern + pattern[n..]; Count(s, pattern) == 1 && !OccursOnce(s, pattern)
  {
    hide Count, Find, OccursOnce;
    var rest := pattern[n..];
    FindAtStart(pattern, rest);
    assert (pattern + rest)[0 + |pattern|..] == rest;
    CountUnfolds(pattern + rest, pattern, 0);
    TooShort(rest, pattern);
    CountNone(rest, pattern);
    OverlapOccursTwice(pattern, n);
  }

  lemma OverlapOccursTwice(pattern: string, n: nat)
    requires 0 < n < |pattern| && pattern[..n] == pattern[|pattern| - n..]
    ensures !OccursOnce(pattern + pattern[n..], pattern)
  {
    var rest, m := pattern[n..], |pattern|;
    var s := pattern + rest;
    assert s[m - n..m - n + m] == pattern[m - n..] + rest == pattern;
    assert OccursAt(s, pattern, m - n);
    assert s[0..m] == pattern;
    assert OccursAt(s, pattern, 0);
  }

  lemma TooShort(s: string, pattern: string)
    requires |s| < |pattern|
    ensures Find(s, pattern).None?
  {
  }

  lemma OverlapIsBorder(s: string, pattern: string, i: nat, k: nat)
    requires OccursAt(s, pattern, i) && OccursAt(s, pattern, k) && i < k < i + |pattern|
    ensures Bordered(pattern)
  {
    var m, n := |pattern|, i + |pattern| - k;
    assert pattern[..n] == s[k..k + m][..n] == s[k..i + m];
    assert pattern[m - n..] == s[i..i + m][m - n..] == s[k..i + m];
  }

  lemma UnborderedOnce(s: string, pattern: string)
    requires pattern != "" && !Bordered(pattern) && Count(s, pattern) == 1
    ensures OccursOnce(s, pattern)
  {
    CountedOnce(s, pattern);
    var i, m := Find(s, pattern).value, |pattern|;
    var rest := s[i + m..];
    CountUnfolds(s, pattern, i);
    assert Find(rest, pattern).None?;
    hide Count, Bordered;
    forall k | OccursAt(s, pattern, k)
      ensures k == i
    {
      if i < k < i + m {
        OverlapIsBorder(s, pattern, i, k);
      } else if k >= i + m {
        OccursInRest(s, pattern, i + m, k);
      }
    }
  }

  // ---- what applying the blocks does ----

  predicate StandsAt(s: string, pattern: string, i: nat) {
    i + |pattern| <= |s| && s[i..i + |pattern|] == pattern
  }

  /** `i` is the one place where the text holds the pattern. */
  ghost predicate OnlyAt(s: string, pattern: string, i: nat) {
    StandsAt(s, pattern, i) && forall k: nat :: StandsAt(s, pattern, k) ==> k == i
  }

  /** Block after block, the search part stands in one place and the replacement is put there. */
  ghost predicate Edited(content: string, blocks: seq<Block>, final: string)
    decreases |blocks|
  {
    if blocks == [] then final == content
    else
      exists i: nat ::
        && OnlyAt(content, blocks[0].search, i)
        && i + |blocks[0].search| <= |content|
        && Edited(content[..i] + blocks[0].replace + content[i + |blocks[0].search|..], blocks[1..], final)
  }

  ghost predicate Anchors(blocks: seq<Block>) {
    forall b :: b in blocks ==> b.search != "" && !Bordered(b.search)
  }

  /** A patch whose search parts each stand in one place is applied; and when no search part overlaps with
      itself, no other patch is. */
  lemma {:induction false} AppliesExactly(content: string, blocks: seq<Block>, n: nat, final: string)
    requires forall b :: b in blocks ==> b.search != ""
    ensures Edited(content, blocks, final) ==> ApplyBlocks(content, blocks, n) == Patched(final, n + |blocks|)
    ensures Anchors(blocks) && ApplyBlocks(content, blocks, n).Patched? ==>
      Edited(content, blocks, ApplyBlocks(content, blocks, n).content)
    decreases |blocks|
  {
    hide Count, ReplaceOnce, Find, Bordered, OnlyAt;
    if blocks == [] {
    } else {
      var b := blocks[0];
      if i: nat :| OnlyAt(content, b.search, i) {
        OnlyIsReplaced(content, b, i);
        forall k: nat | OnlyAt(content, b.search, k)
          ensures k == i
        {
          OnlyIsReplaced(content, b, k);
        }
        var next := content[..i] + b.replace + content[i + |b.search|..];
        AppliesExactly(next, blocks[1..], n + 1, final);
        if Anchors(blocks) && ApplyBlocks(content, blocks, n).Patched? {
          AppliesExactly(next, blocks[1..], n + 1, ApplyBlocks(content, blocks, n).content);
        }
      } else if Anchors(blocks) && Count(content, b.search) == 1 {
        UniqueSomewhere(content, b.search);
      }
    }
  }

  lemma OnlyIsReplaced(content: string, b: Block, i: nat)
    requires b.search != "" && OnlyAt(content, b.search, i)
    ensures i + |b.search| <= |content|
    ensures Find(content, b.search) == Some(i) && Count(content, b.search) == 1
    ensures ReplaceOnce(content, b.search, b.replace) == content[..i] + b.replace + content[i + |b.search|..]
  {
    hide *;
    OnlyOccursOnce(content, b.search, i);
    OnceCountsOne(content, b.search);
    OnceIsFound(content, b.search, i);
    ReplacedThere(content, b.search, b.replace, i);
  }

  lemma ReplacedThere(s: string, pattern: string, replacement: string, i: nat)
    requires Find(s, pattern) == Some(i) && i + |pattern| <= |s|
    ensures ReplaceOnce(s, pattern, replacement) == s[..i] + replacement + s[i + |pattern|..]
  {
    hide Find;
  }

  lemma OnlyOccursOnce(s: string, pattern: string, i: nat)
    requires OnlyAt(s, pattern, i)
    ensures OccursOnce(s, pattern) && OccursAt(s, pattern, i) && i + |pattern| <= |s|
  {
    assert OccursAt(s, pattern, i);
    forall k | OccursAt(s, pattern, k)
      ensures k == i
    {
      assert StandsAt(s, pattern, k);
    }
  }

  lemma UniqueSomewhere(s: string, pattern: string)
    requires pattern != "" && !Bordered(pattern) && Count(s, pattern) == 1
    ensures exists i: nat :: OnlyAt(s, pattern, i)
  {
    hide Count, Bordered;
    UnborderedOnce(s, pattern);
    var i :| OccursAt(s, pattern, i) && forall k :: OccursAt(s, pattern, k) ==> k == i;
    forall k: nat | StandsAt(s, pattern, k)
      ensures k == i
    {
      assert OccursAt(s, pattern, k);
    }
    assert OnlyAt(s, pattern, i);
  }

  // ---- undoing a patch ----

  function Inverse(blocks: seq<Block>): seq<Block> {
    if blocks == [] then [] else Inverse(blocks[1..]) + [Block(blocks[0].replace, blocks[0].search)]
  }

  /** After each block its replacement occurs once in the text it left. */
  ghost predicate Undoable(content: string, blocks: seq<Block>)
    decreases |blocks|
  {
    blocks == [] ||
    (Find(content, blocks[0].search).Some? &&
     var next := ReplaceOnce(content, blocks[0].search, blocks[0].replace);
     blocks[0].replace != "" && OccursOnce(next, blocks[0].replace) && Undoable(next, blocks[1..]))
  }

  /** Replacing back a replacement that occurs once restores the text. */
  lemma ReplacedBack(s: string, a: string, b: string)
    requires Find(s, a).Some? && b != "" && OccursOnce(ReplaceOnce(s, a, b), b)
    ensures var t := ReplaceOnce(s, a, b); Count(t, b) == 1 && Find(t, b).Some? && ReplaceOnce(t, b, a) == s
  {
    hide Count, Find;
    var i := Find(s, a).value;
    var t := ReplaceOnce(s, a, b);
    FoundIsThere(s, a);
    assert t[i..i + |b|] == b;
    assert OccursAt(t, b, i);
    OnceIsFound(t, b, i);
    OnceCountsOne(t, b);
    assert t[..i] == s[..i] && t[i + |b|..] == s[i + |a|..];
    assert s == s[..i] + a + s[i + |a|..];
  }

  lemma FoundIsThere(s: string, a: string)
    requires Find(s, a).Some?
    ensures OccursAt(s, a, Find(s, a).value)
  {
  }

  lemma OnceIsFound(s: string, pattern: string, i: nat)
    requires OccursOnce(s, pattern) && OccursAt(s, pattern, i)
    ensures Find(s, pattern) == Some(i)
  {
    FoundFirst(s, pattern, i);
  }

  lemma {:induction false} ApplyAppends(content: string, a: seq<Block>, b: seq<Block>, n: nat)
    requires ApplyBlocks(content, a, n).Patched?
    ensures var r := ApplyBlocks(content, a, n);
            ApplyBlocks(content, a + b, n) == ApplyBlocks(r.content, b, r.occurrences)
    decreases |a|
  {
    hide Count, ReplaceOnce;
    if a == [] {
      assert a + b == b;
    } else {
      assert (a + b)[0] == a[0] && (a + b)[1..] == a[1..] + b;
      var k := Count(content, a[0].search);
      CountedOnce(content, a[0].search);
      ApplyAppends(ReplaceOnce(content, a[0].search, a[0].replace), a[1..], b, n + k);
    }
  }

  /** The count only accumulates. */
  lemma {:induction false} OccurrencesShift(content: string, blocks: seq<Block>, n: nat, m: nat)
    ensures match ApplyBlocks(content, blocks, n)
            case Patched(c, k) => k == n + |blocks| && ApplyBlocks(content, blocks, m) == Patched(c, m + |blocks|)
            case Rejected(e) => ApplyBlocks(content, blocks, m) == Rejected(e)
    decreases |blocks|
  {
    hide Count, ReplaceOnce;
    if blocks != [] && Count(content, blocks[0].search) == 1 {
      CountedOnce(content, blocks[0].search);
      OccurrencesShift(ReplaceOnce(content, blocks[0].search, blocks[0].replace), blocks[1..], n + 1, m + 1);
    }
  }

  /** A whole patch is undone by its blocks swapped and reversed. */
  lemma {:induction false} PatchUndone(content: string, blocks: seq<Block>)
    requires ApplyBlocks(content, blocks, 0).Patched? && Undoable(content, blocks)
    ensures ApplyBlocks(ApplyBlocks(content, blocks, 0).content, Inverse(blocks), 0) == Patched(content, |blocks|)
    decreases |blocks|
  {
    hide Count, ReplaceOnce, OccursOnce;
    if blocks != [] {
      var b := blocks[0];
      CountedOnce(content, b.search);
      var next := ReplaceOnce(content, b.search, b.replace);
      var rest, back := blocks[1..], Block(b.replace, b.search);
      OccurrencesShift(next, rest, 1, 0);
      PatchUndone(next, rest);
      var end := ApplyBlocks(next, rest, 0).content;
      ApplyAppends(end, Inverse(rest), [back], 0);
      ReplacedBack(content, b.search, b.replace);
      OneBlock(next, back, |rest|);
    }
  }

  lemma OneBlock(content: string, b: Block, n: nat)
    requires Count(content, b.search) == 1 && Find(content, b.search).Some?
    ensures ApplyBlocks(content, [b], n) == Patched(ReplaceOnce(content, b.search, b.replace), n + 1)
  {
    hide Count, ReplaceOnce;
    assert [b][1..] == [];
  }
}
