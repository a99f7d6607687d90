/** Lines and substring search. */
module Texts {
  import opened Common

  /** The text between newlines; always at least one line. */
  function Lines(s: string): (ls: seq<string>)
    ensures ls != []
  {
    if s == "" then [""]
    else
      var rest := Lines(s[1..]);
      if s[0] == '\n' then [""] + rest else [[s[0]] + rest[0]] + rest[1..]
  }

  function Join(ls: seq<string>): string {
    if ls == [] then "" else if |ls| == 1 then ls[0] else ls[0] + ("\n" + Join(ls[1..]))
  }

  predicate OneLine(s: string) {
    '\n' !in s
  }

  lemma {:induction false} LinesAreOneLine(s: string)
    ensures forall l :: l in Lines(s) ==> OneLine(l)
  {
    if s != "" {
      LinesAreOneLine(s[1..]);
      assert Lines(s[1..])[0] in Lines(s[1..]);
    }
  }

  lemma {:induction false} JoinLines(s: string)
    ensures Join(Lines(s)) == s
  {
    if s != "" {
      JoinLines(s[1..]);
      var rest := Lines(s[1..]);
      LinesUnfold(s);
      hide Lines;
      assert s == [s[0]] + s[1..];
      if s[0] == '\n' {
        assert ([""] + rest)[1..] == rest;
      } else {
        assert ([[s[0]] + rest[0]] + rest[1..])[1..] == rest[1..];
      }
    }
  }

  /** A first line, then the rest. */
  lemma {:induction false} LinesOfFirst(l: string, t: string)
    requires OneLine(l)
    ensures Lines(l + ("\n" + t)) == [l] + Lines(t)
    ensures Lines(l) == [l]
  {
    if l == "" {
      assert l + ("\n" + t) == "\n" + t;
      assert ("\n" + t)[1..] == t;
    } else {
      LinesOfFirst(l[1..], t);
      assert (l + ("\n" + t))[1..] == l[1..] + ("\n" + t);
      assert l == [l[0]] + l[1..];
    }
  }

  lemma {:induction false} LinesJoin(ls: seq<string>)
    requires ls != [] && forall l :: l in ls ==> OneLine(l)
    ensures Lines(Join(ls)) == ls
  {
    if |ls| == 1 {
      LinesOfFirst(ls[0], "");
    } else {
      LinesJoin(ls[1..]);
      LinesOfFirst(ls[0], Join(ls[1..]));
      assert ls == [ls[0]] + ls[1..];
    }
  }

  /** Texts joined by a newline have the lines of both. */
  lemma {:induction false} LinesAppend(s: string, t: string)
    ensures Lines(s + ("\n" + t)) == Lines(s) + Lines(t)
  {
    if s == "" {
      assert s + ("\n" + t) == "\n" + t;
      LinesOfFirst("", t);
    } else {
      LinesAppend(s[1..], t);
      LinesStep(s, t);
    }
  }

  lemma LinesStep(s: string, t: string)
    requires s != "" && Lines(s[1..] + ("\n" + t)) == Lines(s[1..]) + Lines(t)
    ensures Lines(s + ("\n" + t)) == Lines(s) + Lines(t)
  {
    hide Lines;
    var u := s + ("\n" + t);
    assert u[0] == s[0];
    assert u[1..] == s[1..] + ("\n" + t);
    LinesUnfold(s);
    LinesUnfold(u);
    HeadAppend(s[0], Lines(s[1..]), Lines(t));
  }

  lemma HeadAppend(c: char, rest: seq<string>, more: seq<string>)
    requires rest != []
    ensures [""] + (rest + more) == [""] + rest + more
    ensures [[c] + (rest + more)[0]] + (rest + more)[1..] == [[c] + rest[0]] + rest[1..] + more
  {
    assert (rest + more)[1..] == rest[1..] + more;
  }

  lemma LinesUnfold(s: string)
    requires s != ""
    ensures var rest := Lines(s[1..]);
            Lines(s) == if s[0] == '\n' then [""] + rest else [[s[0]] + rest[0]] + rest[1..]
  {
  }

  /** A stretch between line ends, without a newline inside, is a line. */
  lemma {:induction false} StretchIsLine(s: string, a: nat, b: nat)
    requires a <= b <= |s| && OneLine(s[a..b])
    requires a == 0 || s[a - 1] == '\n'
    requires b == |s| || s[b] == '\n'
    ensures s[a..b] in Lines(s)
  {
    hide Lines;
    var front := s[..b];
    if b < |s| {
      LinesAppend(s[..b], s[b + 1..]);
      assert s == s[..b] + ("\n" + s[b + 1..]);
    } else {
      assert s == front;
    }
    if a > 0 {
      LinesAppend(front[..a - 1], front[a..]);
      assert front == front[..a - 1] + ("\n" + front[a..]);
    }
    assert front[a..] == s[a..b];
    LinesOfFirst(s[a..b], "");
  }

  // ---- substring search ----

  predicate OccursAt(s: string, pattern: string, i: int) {
    0 <= i <= |s| - |pattern| && s[i..i + |pattern|] == pattern
  }

  /** The first occurrence at or after `from`. */
  function FindFrom(s: string, pattern: string, from: nat): (r: Option<nat>)
    ensures r.None? ==> forall i :: from <= i ==> !OccursAt(s, pattern, i)
    ensures r.Some? ==> from <= r.value && OccursAt(s, pattern, r.value)
                        && forall i :: from <= i < r.value ==> !OccursAt(s, pattern, i)
    decreases |s| - from
  {
    if from + |pattern| > |s| then None
    else if OccursAt(s, pattern, from) then Some(from)
    else FindFrom(s, pattern, from + 1)
  }

  function Find(s: string, pattern: string): Option<nat> {
    FindFrom(s, pattern, 0)
  }

  predicate Contains(s: string, pattern: string) {
    exists i :: 0 <= i <= |s| && OccursAt(s, pattern, i)
  }

  lemma FoundFirst(s: string, pattern: string, i: nat)
    requires OccursAt(s, pattern, i) && forall k :: 0 <= k < i ==> !OccursAt(s, pattern, k)
    ensures Find(s, pattern) == Some(i)
  {
  }
}
