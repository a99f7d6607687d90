/** Splitting a Windows command line by the C runtime's quoting rules. */
module CommandLine {

  predicate IsBlank(c: char) {
    c == ' ' || c == '\t'
  }

  function SkipBlanks(s: string): (r: string)
    ensures |r| <= |s|
    ensures r == "" || !IsBlank(r[0])
  {
    if s != "" && IsBlank(s[0]) then SkipBlanks(s[1..]) else s
  }

  function LeadingSlashes(s: string): (n: nat)
    ensures n <= |s|
    ensures forall i :: 0 <= i < n ==> s[i] == '\\'
    ensures n < |s| ==> s[n] != '\\'
  {
    if s == "" || s[0] != '\\' then 0 else 1 + LeadingSlashes(s[1..])
  }

  function Slashes(n: nat): string {
    seq(n, _ => '\\')
  }

  /** What the next characters contribute: text for the argument, how many are
      used up, and whether the reader is inside quotes afterwards. */
  datatype Token = Token(text: string, width: nat, inQuotes: bool)

  function NextToken(s: string, inQuotes: bool): (t: Token)
    requires s != ""
    ensures 1 <= t.width <= |s|
  {
    var n := LeadingSlashes(s);
    var escapedPair := inQuotes && n + 1 < |s| && s[n + 1] == '"';
    if n < |s| && s[n] == '"' then
      if n % 2 == 1 then Token(Slashes(n / 2) + "\"", n + 1, inQuotes)
      else if escapedPair then Token(Slashes(n / 2) + "\"", n + 2, inQuotes)
      else Token(Slashes(n / 2), n + 1, !inQuotes)
    else if n > 0 then Token(Slashes(n), n, inQuotes)
    else Token([s[0]], 1, inQuotes)
  }

  datatype Scan = Scan(argument: string, rest: string)

  function Prepend(front: string, s: Scan): Scan {
    s.(argument := front + s.argument)
  }

  /** Read one argument, inside or outside quotes. */
  function ScanArgument(s: string, inQuotes: bool): (r: Scan)
    ensures |r.rest| <= |s|
    ensures s != "" && (inQuotes || !IsBlank(s[0])) ==> |r.rest| < |s|
    ensures r.rest == "" || IsBlank(r.rest[0])
    decreases |s|
  {
    if s == "" || (IsBlank(s[0]) && !inQuotes) then Scan("", s)
    else
      var t := NextToken(s, inQuotes);
      Prepend(t.text, ScanArgument(s[t.width..], t.inQuotes))
  }

  function SplitSpec(s: string): seq<string>
    decreases |s|
  {
    var t := SkipBlanks(s);
    if t == "" then []
    else
      var scan := ScanArgument(t, false);
      [scan.argument] + SplitSpec(scan.rest)
  }

  // ---- the splitter ----

  method SkipBlanksFrom(command: string, start: nat) returns (position: nat)
    requires start <= |command|
    ensures start <= position <= |command|
    ensures forall i :: start <= i < position ==> IsBlank(command[i])
    ensures position < |command| ==> !IsBlank(command[position])
    ensures command[position..] == SkipBlanks(command[start..])
  {
    position := start;
    while position < |command| && IsBlank(command[position])
      invariant start <= position <= |command|
      invariant forall i :: start <= i < position ==> IsBlank(command[i])
      invariant SkipBlanks(command[position..]) == SkipBlanks(command[start..])
    {
      assert command[position..][1..] == command[position + 1..];
      position := position + 1;
    }
  }

  method SlashesFrom(command: string, start: nat) returns (position: nat)
    requires start <= |command|
    ensures position == start + LeadingSlashes(command[start..]) <= |command|
  {
    position := start;
    while position < |command| && command[position] == '\\'
      invariant start <= position <= |command|
      invariant position + LeadingSlashes(command[position..]) == start + LeadingSlashes(command[start..])
    {
      assert command[position..][1..] == command[position + 1..];
      position := position + 1;
    }
  }

  lemma ScanStep(s: string, inQuotes: bool, before: string)
    requires s != "" && (inQuotes || !IsBlank(s[0]))
    ensures var t := NextToken(s, inQuotes);
            Prepend(before, ScanArgument(s, inQuotes)) ==
            Prepend(before + t.text, ScanArgument(s[t.width..], t.inQuotes))
  {
    hide NextToken;
    var t := NextToken(s, inQuotes);
    var later := ScanArgument(s[t.width..], t.inQuotes).argument;
    assert before + (t.text + later) == before + t.text + later;
  }

  method ReadArgument(command: string, start: nat) returns (argument: string, position: nat)
    requires start < |command| && !IsBlank(command[start])
    ensures start <= position <= |command|
    ensures Scan(argument, command[position..]) == ScanArgument(command[start..], false)
  {
    hide NextToken, IsBlank;
    argument, position := "", start;
    var inQuotes := false;
    assert Prepend("", ScanArgument(command[start..], false)) == ScanArgument(command[start..], false);
    while position < |command| && (inQuotes || !IsBlank(command[position]))
      invariant start <= position <= |command|
      invariant Prepend(argument, ScanArgument(command[position..], inQuotes)) == ScanArgument(command[start..], false)
    {
      ghost var s, before, wasQuoted := command[position..], argument, inQuotes;
      ghost var token := NextToken(s, inQuotes);
      argument, position, inQuotes := ReadToken(command, position, inQuotes, argument);
      assert command[position..] == s[token.width..];
      assert Prepend(argument, ScanArgument(command[position..], inQuotes)) ==
             ScanArgument(command[start..], false) by {
        ScanStep(s, wasQuoted, before);
      }
    }
  }

  /** The body of the argument loop. */
  method ReadToken(command: string, start: nat, wasQuoted: bool, sofar: string)
    returns (argument: string, position: nat, inQuotes: bool)
    requires start < |command|
    ensures var t := NextToken(command[start..], wasQuoted);
            argument == sofar + t.text && position == start + t.width && inQuotes == t.inQuotes
  {
    argument, position, inQuotes := sofar, start, wasQuoted;
    ghost var s := command[start..];
    if command[position] == '\\' {
      position := SlashesFrom(command, position);
      var count := position - start;
      if position < |command| && command[position] == '"' {
        assert s[count] == '"';
        argument := argument + Slashes(count / 2);
        if count % 2 == 1 {
          argument, position := argument + "\"", position + 1;
        } else if inQuotes && position + 1 < |command| && command[position + 1] == '"' {
          assert s[count + 1] == '"';
          argument, position := argument + "\"", position + 2;
        } else {
          assert count + 1 < |s| ==> s[count + 1] == command[position + 1];
          inQuotes, position := !inQuotes, position + 1;
        }
      } else {
        assert count < |s| ==> s[count] == command[position];
        argument := argument + Slashes(count);
      }
    } else if command[position] == '"' {
      if inQuotes && position + 1 < |command| && command[position + 1] == '"' {
        assert s[1] == '"';
        argument, position := argument + "\"", position + 2;
      } else {
        assert 1 < |s| ==> s[1] == command[position + 1];
        inQuotes, position := !inQuotes, position + 1;
      }
    } else {
      argument, position := argument + [command[position]], position + 1;
    }
  }

  lemma SplitNothing(s: string)
    requires SkipBlanks(s) == ""
    ensures SplitSpec(s) == []
  {
  }

  lemma SplitEmpty()
    ensures SplitSpec("") == []
  {
  }

  /** One turn of the outer loop: an argument is split off. */
  lemma SplitOne(before: seq<string>, s: string, t: string, argument: string, rest: string)
    requires t == SkipBlanks(s) && t != "" && Scan(argument, rest) == ScanArgument(t, false)
    ensures before + SplitSpec(s) == before + [argument] + SplitSpec(SkipBlanks(rest))
  {
    hide *;
    SplitUnfolds(s);
    SplitSkips(rest);
    assert before + ([argument] + SplitSpec(rest)) == before + [argument] + SplitSpec(rest);
  }

  lemma SplitUnfolds(s: string)
    requires SkipBlanks(s) != ""
    ensures var scan := ScanArgument(SkipBlanks(s), false);
            SplitSpec(s) == [scan.argument] + SplitSpec(scan.rest)
  {
    hide SkipBlanks, ScanArgument, IsBlank;
  }

  /** `_split_windows_command_line`. */
  method SplitCommandLine(command: string) returns (arguments: seq<string>)
    ensures arguments == SplitSpec(command)
  {
    hide *;
    arguments := [];
    var position := 0;
    assert command[0..] == command;
    SplitEmpty();
    while position < |command|
      invariant 0 <= position <= |command|
      invariant arguments + SplitSpec(command[position..]) == SplitSpec(command)
      decreases |command| - position
    {
      ghost var s, before := command[position..], arguments;
      position := SkipBlanksFrom(command, position);
      ghost var t := command[position..];
      if position >= |command| {
        SplitNothing(s);
        break;
      }
      var argument;
      argument, position := ReadArgument(command, position);
      arguments := arguments + [argument];
      SplitOne(before, s, t, argument, command[position..]);
      position := SkipBlanksFrom(command, position);
    }
    assert command[position..] == "";
    assert arguments + [] == arguments;
  }

  lemma {:induction false} SkipIdempotent(s: string)
    ensures SkipBlanks(SkipBlanks(s)) == SkipBlanks(s)
  {
  }

  lemma SplitSkips(s: string)
    ensures SplitSpec(SkipBlanks(s)) == SplitSpec(s)
  {
    SkipIdempotent(s);
  }

  // ---- the quoter ----

  /** Double the backslashes in front of a quote, and escape the quote. */
  function Escape(a: string): string
    decreases |a|
  {
    var n := LeadingSlashes(a);
    if n == |a| then Slashes(2 * n) else Escaped(n, a[n], Escape(a[n + 1..]))
  }

  /** Backslashes and what follows them, before the rest of the escaped text. */
  function Escaped(n: nat, c: char, later: string): string {
    if c == '"' then Slashes(2 * n + 1) + ("\"" + later) else Slashes(n) + ([c] + later)
  }

  function Quote(a: string): string {
    "\"" + (Escape(a) + "\"")
  }

  /** Quote every argument and join with single spaces. */
  function CommandFor(args: seq<string>): string {
    if args == [] then ""
    else if |args| == 1 then Quote(args[0])
    else Quote(args[0]) + (" " + CommandFor(args[1..]))
  }

  // ---- round trip ----

  lemma {:induction false} SlashRun(n: nat, t: string)
    requires t == "" || t[0] != '\\'
    ensures LeadingSlashes(Slashes(n) + t) == n
  {
    if n == 0 {
      assert Slashes(0) + t == t;
    } else {
      SlashRun(n - 1, t);
      assert (Slashes(n) + t)[1..] == Slashes(n - 1) + t;
    }
  }

  /** A run of backslashes followed by anything but a quote stands for itself. */
  lemma ScanPlain(n: nat, c: char, rest: string)
    requires c != '\\' && c != '"'
    ensures ScanArgument(Slashes(n) + ([c] + rest), true) == Prepend(Slashes(n) + [c], ScanArgument(rest, true))
  {
    var t := [c] + rest;
    var s := Slashes(n) + t;
    assert t[1..] == rest && LeadingSlashes(t) == 0;
    assert ScanArgument(t, true) == Prepend([c], ScanArgument(rest, true));
    if n == 0 {
      assert s == t && Slashes(0) + [c] == [c];
    } else {
      SlashRun(n, t);
      assert s[n..] == t && s[n] == c;
      var later := ScanArgument(rest, true).argument;
      assert Slashes(n) + [c] + later == Slashes(n) + ([c] + later);
    }
  }

  /** Backslashes before a quote: an odd run escapes it, an even one closes. */
  lemma ScanToQuote(n: nat, rest: string)
    ensures n % 2 == 1 ==>
              ScanArgument(Slashes(n) + ("\"" + rest), true) == Prepend(Slashes(n / 2) + "\"", ScanArgument(rest, true))
    ensures n % 2 == 0 && (rest == "" || rest[0] != '"') ==>
              ScanArgument(Slashes(n) + ("\"" + rest), true) == Prepend(Slashes(n / 2), ScanArgument(rest, false))
  {
    var s := Slashes(n) + ("\"" + rest);
    SlashRun(n, "\"" + rest);
    assert s[n] == '"' && s[n + 1..] == rest;
    assert rest != "" ==> s[n + 1] == rest[0];
  }

  /** An argument and its escaped text, cut after the leading backslashes. */
  lemma ArgumentForm(a: string, n: nat)
    requires n == LeadingSlashes(a) < |a|
    ensures a == Slashes(n) + [a[n]] + a[n + 1..]
  {
    hide LeadingSlashes;
    assert a[..n] == Slashes(n);
    hide Slashes;
    assert a == a[..n] + [a[n]] + a[n + 1..];
  }

  lemma EscapedForm(a: string, n: nat, close: string)
    requires n == LeadingSlashes(a) < |a|
    ensures a[n] == '"' ==> Escape(a) + close == Slashes(2 * n + 1) + ("\"" + (Escape(a[n + 1..]) + close))
    ensures a[n] != '"' ==> Escape(a) + close == Slashes(n) + ([a[n]] + (Escape(a[n + 1..]) + close))
  {
    EscapeUnfolds(a, n);
    hide LeadingSlashes, Slashes, Escape;
    var later := Escape(a[n + 1..]);
    if a[n] == '"' {
      Associate(Slashes(2 * n + 1), "\"", later, close);
    } else {
      Associate(Slashes(n), [a[n]], later, close);
    }
  }

  lemma EscapeUnfolds(a: string, n: nat)
    requires n == LeadingSlashes(a) < |a|
    ensures Escape(a) == Escaped(n, a[n], Escape(a[n + 1..]))
  {
    hide LeadingSlashes, Slashes, Escaped;
  }

  lemma Associate(a: string, b: string, c: string, d: string)
    ensures a + (b + c) + d == a + (b + (c + d))
  {
  }

  /** An argument of backslashes alone: all of them are doubled. */
  lemma ScanSlashes(a: string, tail: string)
    requires LeadingSlashes(a) == |a| && (tail == "" || IsBlank(tail[0]))
    ensures ScanArgument(Escape(a) + ("\"" + tail), true) == Scan(a, tail)
  {
    var n := |a|;
    assert Escape(a) == Slashes(2 * n) by { hide ScanArgument; }
    hide ScanArgument, NextToken, LeadingSlashes, Escape;
    ScanToQuote(2 * n, tail);
    ScanStops(tail);
    assert Slashes(n) + "" == a;
  }

  lemma {:induction false} ScanEscaped(a: string, tail: string)
    requires tail == "" || IsBlank(tail[0])
    ensures ScanArgument(Escape(a) + ("\"" + tail), true) == Scan(a, tail)
    decreases |a|
  {
    var n := LeadingSlashes(a);
    var close := "\"" + tail;
    hide ScanArgument, NextToken, LeadingSlashes, Slashes, Escape, IsBlank;
    if n == |a| {
      ScanSlashes(a, tail);
    } else {
      ArgumentForm(a, n);
      EscapedForm(a, n, close);
      var later := Escape(a[n + 1..]) + close;
      ScanEscaped(a[n + 1..], tail);
      if a[n] == '"' {
        ScanToQuote(2 * n + 1, later);
        assert [a[n]] == "\"";
      } else {
        ScanPlain(n, a[n], later);
      }
    }
  }

  lemma ScanStops(tail: string)
    requires tail == "" || IsBlank(tail[0])
    ensures ScanArgument(tail, false) == Scan("", tail)
  {
  }

  lemma ScanOpens(rest: string)
    ensures ScanArgument("\"" + rest, false) == ScanArgument(rest, true)
  {
    var s := "\"" + rest;
    assert LeadingSlashes(s) == 0 && s[1..] == rest;
    hide ScanArgument;
    assert Slashes(0) == "";
    assert NextToken(s, false) == Token("", 1, true);
    ScanStep(s, false, "");
    assert forall r: Scan :: Prepend("", r) == r;
    assert "" + "" == "";
  }

  lemma QuoteText(a: string, tail: string)
    ensures Quote(a) + tail == "\"" + (Escape(a) + ("\"" + tail))
  {
  }

  lemma ScanQuoted(a: string, tail: string)
    requires tail == "" || IsBlank(tail[0])
    ensures ScanArgument(Quote(a) + tail, false) == Scan(a, tail)
  {
    var s := Quote(a) + tail;
    hide *;
    ScanOpens(Escape(a) + ("\"" + tail));
    ScanEscaped(a, tail);
    assert s == "\"" + (Escape(a) + ("\"" + tail)) by { QuoteText(a, tail); }
  }

  /** Splitting what the quoter wrote gives the arguments back, whatever they
      contain: blanks, quotes, trailing backslashes, nothing at all. */
  lemma {:induction false} RoundTrip(args: seq<string>)
    ensures SplitSpec(CommandFor(args)) == args
  {
    if args == [] {
      SplitEmpty();
    } else {
      hide *;
      var tail := Tail(args[1..]);
      CommandUnfolds(args);
      QuoteIsNotBlank(args[0], tail);
      TailSkips(args[1..]);
      ScanQuoted(args[0], tail);
      RoundTrip(args[1..]);
      SplitOne([], Quote(args[0]) + tail, Quote(args[0]) + tail, args[0], tail);
      SplitSkips(CommandFor(args[1..]));
      assert args == [] + [args[0]] + args[1..];
      assert [] + SplitSpec(CommandFor(args)) == SplitSpec(CommandFor(args));
    }
  }

  /** What stands behind a quoted argument. */
  function Tail(args: seq<string>): string {
    if args == [] then "" else " " + CommandFor(args)
  }

  lemma CommandUnfolds(args: seq<string>)
    requires args != []
    ensures CommandFor(args) == Quote(args[0]) + Tail(args[1..])
  {
    hide Quote;
    assert Quote(args[0]) + "" == Quote(args[0]);
  }

  lemma QuoteIsNotBlank(a: string, tail: string)
    ensures Quote(a) + tail != "" && SkipBlanks(Quote(a) + tail) == Quote(a) + tail
  {
    hide Escape;
  }

  lemma TailSkips(args: seq<string>)
    ensures Tail(args) == "" || IsBlank(Tail(args)[0])
    ensures SkipBlanks(Tail(args)) == SkipBlanks(CommandFor(args))
  {
    hide CommandFor;
    if args != [] {
      assert Tail(args)[1..] == CommandFor(args);
    } else {
      NoCommand();
    }
  }

  lemma NoCommand()
    ensures CommandFor([]) == ""
  {
  }
}
