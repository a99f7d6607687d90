/** Arguments written without quotes, with quotes inside, and with doubled quotes all read back. */
module CommandLaws {
  import opened CommandLine

  /** An argument written bare: a quote is escaped and the backslashes in front of it are doubled. */
  function Bare(a: string): string
    decreases |a|
  {
    var n := LeadingSlashes(a);
    if n == |a| then a else Escaped(n, a[n], Bare(a[n + 1..]))
  }

  /** The other way to write a quote inside quotes: twice. */
  function Doubled(a: string): string
    decreases |a|
  {
    var n := LeadingSlashes(a);
    if n == |a| then Slashes(2 * n)
    else if a[n] == '"' then Slashes(2 * n) + ("\"\"" + Doubled(a[n + 1..]))
    else Slashes(n) + ([a[n]] + Doubled(a[n + 1..]))
  }

  predicate NoBlank(a: string) {
    forall c :: c in a ==> c != ' ' && c != '\t'
  }

  // ---- one step of the reader ----

  lemma PlainToken(c: char, rest: string)
    requires c != '\\' && c != '"'
    ensures NextToken([c] + rest, false) == Token([c], 1, false)
  {
    assert LeadingSlashes([c] + rest) == 0;
  }

  lemma SlashesToken(n: nat, t: string)
    requires n > 0 && (t == "" || (t[0] != '\\' && t[0] != '"'))
    ensures NextToken(Slashes(n) + t, false) == Token(Slashes(n), n, false)
  {
    SlashRun(n, t);
    assert t != "" ==> (Slashes(n) + t)[n] == t[0];
  }

  lemma EscapedToken(n: nat, rest: string)
    ensures NextToken(Slashes(2 * n + 1) + ("\"" + rest), false) == Token(Slashes(n) + "\"", 2 * n + 2, false)
  {
    var s := Slashes(2 * n + 1) + ("\"" + rest);
    SlashRun(2 * n + 1, "\"" + rest);
    hide LeadingSlashes;
    assert s[2 * n + 1] == '"';
  }

  lemma DoubledToken(n: nat, rest: string)
    ensures NextToken(Slashes(2 * n) + ("\"\"" + rest), true) == Token(Slashes(n) + "\"", 2 * n + 2, true)
  {
    var t := "\"\"" + rest;
    var s := Slashes(2 * n) + t;
    SlashRun(2 * n, t);
    hide LeadingSlashes;
    assert s[2 * n] == '"' && s[2 * n + 1] == '"';
  }

  /** A token of text, then the rest of the argument. */
  lemma ScanBy(front: string, rest: string, inQuotes: bool, text: string)
    requires front != "" && (inQuotes || !IsBlank(front[0]))
    requires NextToken(front + rest, inQuotes) == Token(text, |front|, inQuotes)
    ensures ScanArgument(front + rest, inQuotes) == Prepend(text, ScanArgument(rest, inQuotes))
  {
    hide NextToken;
    assert (front + rest)[|front|..] == rest;
  }

  lemma PlainScan(c: char, rest: string)
    requires c != '\\' && c != '"' && c != ' ' && c != '\t'
    ensures ScanArgument([c] + rest, false) == Prepend([c], ScanArgument(rest, false))
  {
    hide NextToken, ScanArgument;
    PlainToken(c, rest);
    ScanBy([c], rest, false, [c]);
  }

  lemma SlashesScan(n: nat, t: string)
    requires t == "" || (t[0] != '\\' && t[0] != '"')
    ensures ScanArgument(Slashes(n) + t, false) == Prepend(Slashes(n), ScanArgument(t, false))
  {
    hide NextToken, ScanArgument;
    if n == 0 {
      assert Slashes(0) + t == t && forall r: Scan :: Prepend(Slashes(0), r) == r;
    } else {
      SlashesToken(n, t);
      ScanBy(Slashes(n), t, false, Slashes(n));
    }
  }

  lemma BarePlain(n: nat, c: char, rest: string)
    requires c != '\\' && c != '"' && c != ' ' && c != '\t'
    ensures ScanArgument(Slashes(n) + ([c] + rest), false) == Prepend(Slashes(n) + [c], ScanArgument(rest, false))
  {
    hide NextToken, ScanArgument, Slashes;
    PlainScan(c, rest);
    SlashesScan(n, [c] + rest);
    var later := ScanArgument(rest, false).argument;
    assert Slashes(n) + [c] + later == Slashes(n) + ([c] + later);
  }

  lemma BareQuote(n: nat, rest: string)
    ensures ScanArgument(Slashes(2 * n + 1) + ("\"" + rest), false) ==
            Prepend(Slashes(n) + "\"", ScanArgument(rest, false))
  {
    hide NextToken, ScanArgument;
    EscapedToken(n, rest);
    assert Slashes(2 * n + 1) + ("\"" + rest) == Slashes(2 * n + 1) + "\"" + rest;
    ScanBy(Slashes(2 * n + 1) + "\"", rest, false, Slashes(n) + "\"");
  }

  lemma DoubledQuote(n: nat, rest: string)
    ensures ScanArgument(Slashes(2 * n) + ("\"\"" + rest), true) ==
            Prepend(Slashes(n) + "\"", ScanArgument(rest, true))
  {
    hide NextToken, ScanArgument;
    DoubledToken(n, rest);
    assert Slashes(2 * n) + ("\"\"" + rest) == Slashes(2 * n) + "\"\"" + rest;
    ScanBy(Slashes(2 * n) + "\"\"", rest, true, Slashes(n) + "\"");
  }

  /** Backslashes at the end of an argument stand for themselves. */
  lemma BareSlashes(n: nat, tail: string)
    requires tail == "" || IsBlank(tail[0])
    ensures ScanArgument(Slashes(n) + tail, false) == Scan(Slashes(n), tail)
  {
    hide NextToken, ScanArgument;
    ScanStops(tail);
    SlashesScan(n, tail);
    assert Slashes(n) + "" == Slashes(n);
  }

  lemma BareUnfolds(a: string, n: nat, t: string)
    requires n == LeadingSlashes(a) < |a|
    ensures a[n] == '"' ==> Bare(a) + t == Slashes(2 * n + 1) + ("\"" + (Bare(a[n + 1..]) + t))
    ensures a[n] != '"' ==> Bare(a) + t == Slashes(n) + ([a[n]] + (Bare(a[n + 1..]) + t))
  {
    assert Bare(a) == Escaped(n, a[n], Bare(a[n + 1..]));
    hide LeadingSlashes, Slashes, Bare;
    var later := Bare(a[n + 1..]);
    if a[n] == '"' {
      Associate(Slashes(2 * n + 1), "\"", later, t);
    } else {
      Associate(Slashes(n), [a[n]], later, t);
    }
  }

  lemma DoubledUnfolds(a: string, n: nat, t: string)
    requires n == LeadingSlashes(a) < |a|
    ensures a[n] == '"' ==> Doubled(a) + t == Slashes(2 * n) + ("\"\"" + (Doubled(a[n + 1..]) + t))
    ensures a[n] != '"' ==> Doubled(a) + t == Slashes(n) + ([a[n]] + (Doubled(a[n + 1..]) + t))
  {
    var later := Doubled(a[n + 1..]);
    if a[n] == '"' {
      assert Doubled(a) == Slashes(2 * n) + ("\"\"" + later);
      Associate(Slashes(2 * n), "\"\"", later, t);
    } else {
      assert Doubled(a) == Slashes(n) + ([a[n]] + later);
      Associate(Slashes(n), [a[n]], later, t);
    }
  }

  // ---- whole arguments ----

  /** A bare argument ends at the first blank or with the command; one that does not end in a backslash
      may also go on. */
  lemma {:induction false} ScanBare(a: string, t: string)
    requires NoBlank(a)
    requires t == "" || IsBlank(t[0]) || a == "" || a[|a| - 1] != '\\'
    ensures ScanArgument(Bare(a) + t, false) == Prepend(a, ScanArgument(t, false))
    decreases |a|
  {
    var n := LeadingSlashes(a);
    if n == |a| {
      BareEnd(a, t);
    } else {
      NoBlankBehind(a, n + 1);
      ScanBare(a[n + 1..], t);
      hide *;
      BareStep(a, n, t);
    }
  }

  lemma NoBlankBehind(a: string, k: nat)
    requires NoBlank(a) && k <= |a|
    ensures NoBlank(a[k..])
  {
    forall c | c in a[k..]
      ensures c != ' ' && c != '\t'
    {
      assert c in a;
    }
  }

  lemma BareStep(a: string, n: nat, t: string)
    requires NoBlank(a) && n == LeadingSlashes(a) < |a|
    requires ScanArgument(Bare(a[n + 1..]) + t, false) == Prepend(a[n + 1..], ScanArgument(t, false))
    ensures ScanArgument(Bare(a) + t, false) == Prepend(a, ScanArgument(t, false))
  {
    var c, later, scan := a[n], Bare(a[n + 1..]) + t, ScanArgument(t, false).argument;
    assert c != '\\' && c in a;
    hide ScanArgument, NextToken, LeadingSlashes, Slashes, Bare, Escaped;
    ArgumentForm(a, n);
    BareUnfolds(a, n, t);
    if c == '"' {
      BareQuote(n, later);
      assert [c] == "\"";
    } else {
      BarePlain(n, c, later);
    }
    Associate3(Slashes(n) + [c], a[n + 1..], scan);
  }

  lemma Associate3(a: string, b: string, c: string)
    ensures a + (b + c) == a + b + c
  {
  }

  lemma BareEnd(a: string, t: string)
    requires LeadingSlashes(a) == |a|
    requires t == "" || IsBlank(t[0]) || a == "" || a[|a| - 1] != '\\'
    ensures ScanArgument(Bare(a) + t, false) == Prepend(a, ScanArgument(t, false))
  {
    assert Bare(a) == a by { hide ScanArgument; }
    assert a == Slashes(|a|) by { hide ScanArgument; }
    if a == "" {
      assert "" + t == t;
      assert forall r: Scan :: Prepend("", r) == r;
    } else {
      assert a[|a| - 1] == '\\';
      hide Slashes, Bare, LeadingSlashes;
      BareSlashes(|a|, t);
      ScanStops(t);
      assert a + "" == a;
    }
  }

  /** Quotes may open behind bare text: what stands inside them belongs to the same argument. */
  lemma QuotesOpenInside(a: string, b: string, tail: string)
    requires NoBlank(a) && (a == "" || a[|a| - 1] != '\\')
    requires tail == "" || tail[0] == ' ' || tail[0] == '\t'
    ensures ScanArgument(Bare(a) + (Quote(b) + tail), false) == Scan(a + b, tail)
  {
    ScanBare(a, Quote(b) + tail);
    ScanQuoted(b, tail);
  }

  lemma {:induction false} ScanDoubled(a: string, tail: string)
    requires tail == "" || IsBlank(tail[0])
    ensures ScanArgument(Doubled(a) + ("\"" + tail), true) == Scan(a, tail)
    decreases |a|
  {
    var n := LeadingSlashes(a);
    var close := "\"" + tail;
    if n == |a| {
      assert Doubled(a) == Slashes(2 * n) == Escape(a) by { hide ScanArgument; }
      hide ScanArgument, NextToken, Slashes, Escape, Doubled;
      ScanSlashes(a, tail);
    } else {
      hide ScanArgument, NextToken, LeadingSlashes, Slashes, Doubled, IsBlank;
      ArgumentForm(a, n);
      DoubledUnfolds(a, n, close);
      ScanDoubled(a[n + 1..], tail);
      var later := Doubled(a[n + 1..]) + close;
      if a[n] == '"' {
        DoubledQuote(n, later);
        assert [a[n]] == "\"";
      } else {
        ScanPlain(n, a[n], later);
      }
    }
  }

  /** The ways to write one argument. */
  datatype Style = Plain | Quoted | TwoQuotes

  function Written(a: string, style: Style): string {
    match style
    case Plain => Bare(a)
    case Quoted => Quote(a)
    case TwoQuotes => "\"" + (Doubled(a) + "\"")
  }

  /** Only an argument with characters and without blanks can be written bare. */
  predicate Fits(a: string, style: Style) {
    style.Plain? ==> a != "" && NoBlank(a)
  }

  function Command(args: seq<string>, styles: seq<Style>): string
    requires |args| == |styles|
  {
    if args == [] then ""
    else Written(args[0], styles[0]) + (if |args| == 1 then "" else " " + Command(args[1..], styles[1..]))
  }

  lemma ScanWritten(a: string, style: Style, tail: string)
    requires Fits(a, style) && (tail == "" || IsBlank(tail[0]))
    ensures ScanArgument(Written(a, style) + tail, false) == Scan(a, tail)
  {
    match style
    case Plain =>
      ScanBare(a, tail);
      ScanStops(tail);
      assert a + "" == a;
    case Quoted => ScanQuoted(a, tail);
    case TwoQuotes =>
      ScanOpens(Doubled(a) + ("\"" + tail));
      ScanDoubled(a, tail);
      hide *;
      TwoQuotesText(a, tail);
  }

  lemma TwoQuotesText(a: string, tail: string)
    ensures Written(a, TwoQuotes) + tail == "\"" + (Doubled(a) + ("\"" + tail))
  {
  }

  lemma WrittenStarts(a: string, style: Style, tail: string)
    requires Fits(a, style)
    ensures var s := Written(a, style) + tail; s != "" && SkipBlanks(s) == s
  {
    var s := Written(a, style);
    if style.Plain? {
      var n := LeadingSlashes(a);
      assert s[0] == a[0] || s[0] == '\\';
      assert a[0] in a;
    }
    assert (s + tail)[0] == s[0];
  }

  /** However each of the arguments is written, splitting the command gives all of them back. */
  lemma {:induction false} AnyStyleReadsBack(args: seq<string>, styles: seq<Style>)
    requires |args| == |styles| && forall i :: 0 <= i < |args| ==> Fits(args[i], styles[i])
    ensures SplitSpec(Command(args, styles)) == args
  {
    hide SplitSpec, Written, Fits, ScanArgument, SkipBlanks, IsBlank;
    if args == [] {
      SplitEmpty();
    } else {
      var rest := Command(args[1..], styles[1..]);
      var tail := if |args| == 1 then "" else " " + rest;
      var s := Written(args[0], styles[0]) + tail;
      assert Command(args, styles) == s;
      AnyStyleReadsBack(args[1..], styles[1..]);
      BlankTail(rest);
      WrittenStarts(args[0], styles[0], tail);
      ScanWritten(args[0], styles[0], tail);
      SplitOne([], s, s, args[0], tail);
      SplitSkips(rest);
      assert SkipBlanks(tail) == SkipBlanks(rest);
      assert args == [] + [args[0]] + args[1..];
      assert [] + SplitSpec(s) == SplitSpec(s);
    }
  }

  lemma BlankTail(rest: string)
    ensures IsBlank(' ') && SkipBlanks(" " + rest) == SkipBlanks(rest)
  {
    assert (" " + rest)[1..] == rest;
  }
}
