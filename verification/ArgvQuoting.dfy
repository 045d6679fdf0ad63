/** Quoting a Windows command line so that the child's argv parser undoes it.

    The printer is `quoteArg` and the join loop of `spawnDetached`. The parser is the
    one documented for CommandLineToArgvW (Remarks: 2n backslashes and a quote give n
    backslashes and toggle quoting, 2n+1 give n backslashes and a literal quote, and
    backslashes not before a quote are literal). Its set of delimiters is a parameter:
    the documentation says white space, implementations use space and tab. */
module ArgvQuoting {

  const QUOTE := '\"'
  const BACKSLASH := '\\'

  /** The characters that make `quoteArg` quote, besides the quote itself. */
  predicate Separator(c: char) {
    c == ' ' || c == '\t' || c == '\n' || c as int == 11
  }

  predicate Special(c: char) {
    Separator(c) || c == QUOTE
  }

  function Repeat(n: nat): (s: string)
    ensures |s| == n
  {
    if n == 0 then "" else [BACKSLASH] + Repeat(n - 1)
  }

  /** The length of the run of backslashes at the front. */
  function Run(s: string): (n: nat)
    ensures n <= |s|
    ensures n < |s| ==> s[n] != BACKSLASH
  {
    if s == "" || s[0] != BACKSLASH then 0 else 1 + Run(s[1..])
  }

  predicate NeedsQuotes(a: string) {
    a == "" || exists i | 0 <= i < |a| :: Special(a[i])
  }

  // ---- The printer ---------------------------------------------------------

  function Body(a: string): string
    decreases |a|
  {
    var n := Run(a);
    if n == |a| then Repeat(2 * n)
    else if a[n] == QUOTE then Repeat(2 * n + 1) + [QUOTE] + Body(a[n + 1..])
    else Repeat(n) + [a[n]] + Body(a[n + 1..])
  }

  function Quote(a: string): string {
    if NeedsQuotes(a) then [QUOTE] + Body(a) + [QUOTE] else a
  }

  method QuoteArg(a: string) returns (out: string)
    ensures out == Quote(a)
  {
    if !NeedsQuotes(a) { return a; }
    var body := Escape(a);
    out := [QUOTE] + body + [QUOTE];
  }

  /** The loop over the argument: backslashes in front of a quote, or of the end, are
      doubled, and every quote gets one more. */
  method Escape(a: string) returns (out: string)
    ensures out == Body(a)
  {
    out := "";
    var i := 0;
    Start(a);
    while true
      invariant i <= |a|
      invariant Escaped(a, i, out)
      decreases |a| - i
    {
      var end, backslashes := SkipBackslashes(a, i);
      BodyStep(a, i, end, out);
      if end == |a| {
        return out + Repeat(backslashes * 2);
      }
      if a[end] == QUOTE {
        out := out + (Repeat(backslashes * 2 + 1) + [QUOTE]);
      } else {
        out := out + (Repeat(backslashes) + [a[end]]);
      }
      i := end + 1;
    }
  }

  /** The body of the first `i` characters is out. */
  ghost predicate Escaped(a: string, i: nat, out: string)
    requires i <= |a|
  {
    out + Body(a[i..]) == Body(a)
  }

  lemma Start(a: string)
    ensures Escaped(a, 0, "")
  {
    assert a[0..] == a;
  }

  /** The inner loop: the run of backslashes that starts at `from`. */
  method SkipBackslashes(a: string, from: nat) returns (i: nat, backslashes: nat)
    requires from <= |a|
    ensures from <= i <= |a| && backslashes == i - from == Run(a[from..])
    ensures i < |a| ==> a[i] != BACKSLASH
  {
    i, backslashes := from, 0;
    while i < |a| && a[i] == BACKSLASH
      invariant from <= i <= |a| && backslashes == i - from
      invariant Run(a[from..]) == backslashes + Run(a[i..])
    {
      assert a[i..][1..] == a[i + 1..];
      i, backslashes := i + 1, backslashes + 1;
    }
  }

  /** The body of what is left of `a` at `from`, whose backslashes end at `i`. */
  lemma BodyAt(a: string, from: nat, i: nat)
    requires from <= i <= |a| && Run(a[from..]) == i - from
    ensures Body(a[from..])
         == if i == |a| then Repeat(2 * (i - from))
            else if a[i] == QUOTE then Repeat(2 * (i - from) + 1) + [QUOTE] + Body(a[i + 1..])
            else Repeat(i - from) + [a[i]] + Body(a[i + 1..])
  {
    var rest, n := a[from..], i - from;
    if i < |a| {
      assert rest[n] == a[i];
      assert rest[n + 1..] == a[i + 1..];
    }
  }

  /** One round of the loop moves a piece of the body to the output. */
  lemma BodyStep(a: string, from: nat, end: nat, out: string)
    requires from <= end <= |a| && Run(a[from..]) == end - from && Escaped(a, from, out)
    ensures end == |a| ==> out + Repeat((end - from) * 2) == Body(a)
    ensures end < |a| && a[end] == QUOTE ==> Escaped(a, end + 1, out + (Repeat((end - from) * 2 + 1) + [QUOTE]))
    ensures end < |a| && a[end] != QUOTE ==> Escaped(a, end + 1, out + (Repeat(end - from) + [a[end]]))
  {
    BodyAt(a, from, end);
    if end < |a| {
      Regroup(out, Repeat((end - from) * 2 + 1) + [QUOTE], Body(a[end + 1..]));
      Regroup(out, Repeat(end - from) + [a[end]], Body(a[end + 1..]));
    }
  }

  lemma Regroup(a: string, b: string, c: string)
    ensures a + b + c == a + (b + c)
  {
  }

  /** The quoted arguments, separated by single spaces. */
  function CommandLine(args: seq<string>): string {
    if args == [] then ""
    else if |args| == 1 then Quote(args[0])
    else Quote(args[0]) + " " + CommandLine(args[1..])
  }

  method JoinArgs(args: seq<string>) returns (cmdline: string)
    ensures cmdline == CommandLine(args)
  {
    cmdline := "";
    for i := 0 to |args|
      invariant cmdline == CommandLine(args[..i])
      invariant cmdline == "" <==> i == 0
    {
      var quoted := QuoteArg(args[i]);
      CommandLineAppend(args[..i], args[i]);
      assert args[..i] + [args[i]] == args[..i + 1];
      if cmdline != "" { cmdline := cmdline + " "; }
      cmdline := cmdline + quoted;
      if args[i] == "" { assert Special(QUOTE) && |quoted| >= 2; }
    }
    assert args[..|args|] == args;
  }

  lemma {:induction false} CommandLineAppend(args: seq<string>, a: string)
    ensures CommandLine(args + [a]) == if args == [] then Quote(a) else CommandLine(args) + " " + Quote(a)
  {
    if |args| > 0 {
      CommandLineAppend(args[1..], a);
      assert (args + [a])[1..] == args[1..] + [a];
      if |args| > 1 {
        Gather(Quote(args[0]), " ", CommandLine(args[1..]), " " + Quote(a));
        Regroup(CommandLine(args[1..]), " ", Quote(a));
        Regroup(Quote(args[0]) + " " + CommandLine(args[1..]), " ", Quote(a));
      }
    }
  }

  // ---- The parser ----------------------------------------------------------

  datatype Parsed = Parsed(arg: string, rest: string)

  /** Reads the rest of one argument; `quoted` is the in-quotes mode. */
  function ReadArg(s: string, quoted: bool, arg: string, blanks: set<char>): (p: Parsed)
    ensures |p.rest| <= |s|
    ensures s != "" && (quoted || s[0] !in blanks || s[0] == BACKSLASH || s[0] == QUOTE) ==> |p.rest| < |s|
    decreases |s|
  {
    var n := Run(s);
    if n == |s| then Parsed(arg + s, "")
    else if s[n] == QUOTE then
      if n % 2 == 0 then ReadArg(s[n + 1..], !quoted, arg + Repeat(n / 2), blanks)
      else ReadArg(s[n + 1..], quoted, arg + Repeat(n / 2) + [QUOTE], blanks)
    else if !quoted && s[n] in blanks then Parsed(arg + s[..n], s[n..])
    else ReadArg(s[n + 1..], quoted, arg + s[..n + 1], blanks)
  }

  function SkipBlanks(s: string, blanks: set<char>): (r: string)
    ensures |r| <= |s|
    ensures r != "" ==> r[0] !in blanks
  {
    if s != "" && s[0] in blanks then SkipBlanks(s[1..], blanks) else s
  }

  function ReadArgs(s: string, blanks: set<char>): seq<string>
    decreases |s|
  {
    var t := SkipBlanks(s, blanks);
    if t == "" then []
    else
      var p := ReadArg(t, false, "", blanks);
      [p.arg] + ReadArgs(p.rest, blanks)
  }

  /** The program name: quotes group but nothing is escaped. */
  function ReadProgram(s: string, quoted: bool, name: string, blanks: set<char>): Parsed
    decreases |s|
  {
    if s == "" then Parsed(name, "")
    else if s[0] == QUOTE then ReadProgram(s[1..], !quoted, name, blanks)
    else if !quoted && s[0] in blanks then Parsed(name, s)
    else ReadProgram(s[1..], quoted, name + [s[0]], blanks)
  }

  // ---- The round trip ------------------------------------------------------

  /** Delimiters for which the quoting is meant: at least the space that joins the
      arguments, at most space, tab, newline and vertical tab. */
  predicate Delimiters(blanks: set<char>) {
    ' ' in blanks && forall c | c in blanks :: c == ' ' || c == '\t' || c == '\n' || c as int == 11
  }

  /** What may follow an argument on the command line. */
  predicate Ends(tail: string, blanks: set<char>) {
    tail == "" || tail[0] in blanks
  }

  lemma {:induction false} RunOfRepeat(n: nat, s: string)
    requires s == "" || s[0] != BACKSLASH
    ensures Run(Repeat(n) + s) == n
  {
    if n == 0 {
      assert Repeat(n) + s == s;
    } else {
      RunOfRepeat(n - 1, s);
      assert (Repeat(n) + s)[1..] == Repeat(n - 1) + s;
    }
  }

  lemma {:induction false} RunIsRepeat(s: string)
    ensures s[..Run(s)] == Repeat(Run(s))
  {
    if s != "" && s[0] == BACKSLASH {
      RunIsRepeat(s[1..]);
      assert s[..Run(s)] == [s[0]] + s[1..][..Run(s[1..])];
    }
  }

  /** The parser's four moves, on text that starts with a run of backslashes. */
  lemma ReadToggle(n: nat, more: string, quoted: bool, arg: string, blanks: set<char>)
    ensures ReadArg(Repeat(2 * n) + [QUOTE] + more, quoted, arg, blanks)
         == ReadArg(more, !quoted, arg + Repeat(n), blanks)
  {
    var s := Repeat(2 * n) + [QUOTE] + more;
    RunAt(2 * n, QUOTE, more);
    assert s[2 * n + 1..] == more;
  }

  lemma ReadEscaped(n: nat, more: string, quoted: bool, arg: string, blanks: set<char>)
    ensures ReadArg(Repeat(2 * n + 1) + [QUOTE] + more, quoted, arg, blanks)
         == ReadArg(more, quoted, arg + Repeat(n) + [QUOTE], blanks)
  {
    var s := Repeat(2 * n + 1) + [QUOTE] + more;
    RunAt(2 * n + 1, QUOTE, more);
    assert s[2 * n + 2..] == more;
  }

  lemma ReadChar(n: nat, c: char, more: string, quoted: bool, arg: string, blanks: set<char>)
    requires c != QUOTE && c != BACKSLASH && (quoted || c !in blanks)
    ensures ReadArg(Repeat(n) + [c] + more, quoted, arg, blanks)
         == ReadArg(more, quoted, arg + (Repeat(n) + [c]), blanks)
  {
    var s := Repeat(n) + [c] + more;
    RunAt(n, c, more);
    assert s[..n + 1] == Repeat(n) + [c] && s[n + 1..] == more;
  }

  lemma ReadStop(n: nat, tail: string, arg: string, blanks: set<char>)
    requires Delimiters(blanks) && Ends(tail, blanks)
    ensures ReadArg(Repeat(n) + tail, false, arg, blanks) == Parsed(arg + Repeat(n), tail)
  {
    var s := Repeat(n) + tail;
    RunOfRepeat(n, tail);
    assert s[..n] == Repeat(n) && s[n..] == tail;
  }

  lemma RunAt(n: nat, c: char, more: string)
    requires c != BACKSLASH
    ensures Run(Repeat(n) + [c] + more) == n
  {
    RunOfRepeat(n, [c] + more);
    assert Repeat(n) + [c] + more == Repeat(n) + ([c] + more);
  }

  lemma CutAt(a: string, n: nat)
    requires n < |a|
    ensures a == a[..n] + [a[n]] + a[n + 1..]
  {
  }

  /** An argument seen as its leading backslashes, one more character and the rest. */
  lemma SplitAtRun(a: string)
    requires Run(a) < |a|
    ensures a == Repeat(Run(a)) + [a[Run(a)]] + a[Run(a) + 1..]
  {
    RunIsRepeat(a);
    CutAt(a, Run(a));
  }

  /** Between the quotes, the parser gives back what was escaped. */
  lemma {:induction false} ReadBody(a: string, tail: string, arg: string, blanks: set<char>)
    requires Delimiters(blanks) && Ends(tail, blanks)
    ensures ReadArg(Body(a) + ([QUOTE] + tail), true, arg, blanks) == Parsed(arg + a, tail)
    decreases |a|
  {
    var n := Run(a);
    if n == |a| {
      RunIsRepeat(a);
      assert a == Repeat(n);
      Regroup(Repeat(2 * n), [QUOTE], tail);
      ReadToggle(n, tail, true, arg, blanks);
      ReadStop(0, tail, arg + a, blanks);
      assert Repeat(0) + tail == tail && arg + a + Repeat(0) == arg + a;
    } else {
      var rest := a[n + 1..];
      var more := Body(rest) + ([QUOTE] + tail);
      SplitAtRun(a);
      if a[n] == QUOTE {
        Regroup(Repeat(2 * n + 1) + [QUOTE], Body(rest), [QUOTE] + tail);
        ReadEscaped(n, more, true, arg, blanks);
        ReadBody(rest, tail, arg + Repeat(n) + [QUOTE], blanks);
      } else {
        Regroup(Repeat(n) + [a[n]], Body(rest), [QUOTE] + tail);
        ReadChar(n, a[n], more, true, arg, blanks);
        ReadBody(rest, tail, arg + (Repeat(n) + [a[n]]), blanks);
      }
      Gather(arg, Repeat(n), [a[n]], rest);
    }
  }

  lemma Gather(arg: string, run: string, c: string, rest: string)
    ensures arg + run + c + rest == arg + (run + c + rest)
    ensures arg + (run + c) + rest == arg + (run + c + rest)
  {
  }

  /** An argument that needs no quotes is read up to the delimiter behind it. */
  lemma {:induction false} ReadPlain(a: string, tail: string, arg: string, blanks: set<char>)
    requires Delimiters(blanks) && Ends(tail, blanks)
    requires forall i | 0 <= i < |a| :: !Special(a[i])
    ensures ReadArg(a + tail, false, arg, blanks) == Parsed(arg + a, tail)
    decreases |a|
  {
    var n := Run(a);
    if n == |a| {
      RunIsRepeat(a);
      assert a == Repeat(n);
      ReadStop(n, tail, arg, blanks);
    } else {
      var rest := a[n + 1..];
      SplitAtRun(a);
      Regroup(Repeat(n) + [a[n]], rest, tail);
      ReadChar(n, a[n], rest + tail, false, arg, blanks);
      ReadPlain(rest, tail, arg + (Repeat(n) + [a[n]]), blanks);
      Gather(arg, Repeat(n), [a[n]], rest);
    }
  }

  lemma OpenQuote(body: string, tail: string)
    ensures [QUOTE] + body + [QUOTE] + tail == Repeat(2 * 0) + [QUOTE] + (body + ([QUOTE] + tail))
  {
  }

  lemma ReadQuoted(a: string, tail: string, blanks: set<char>)
    requires Delimiters(blanks) && Ends(tail, blanks)
    ensures Quote(a) != "" && Quote(a)[0] !in blanks
    ensures ReadArg(Quote(a) + tail, false, "", blanks) == Parsed(a, tail)
  {
    assert "" + a == a;
    if NeedsQuotes(a) {
      var inner := Body(a) + ([QUOTE] + tail);
      OpenQuote(Body(a), tail);
      ReadToggle(0, inner, false, "", blanks);
      assert "" + Repeat(0) == "";
      ReadBody(a, tail, "", blanks);
    } else {
      assert !Special(a[0]);
      ReadPlain(a, tail, "", blanks);
    }
  }

  /** Parsing the joined quoted arguments gives back exactly the arguments: empty
      ones, embedded quotes and every run of backslashes included. */
  lemma {:induction false} RoundTrip(args: seq<string>, blanks: set<char>)
    requires Delimiters(blanks)
    ensures ReadArgs(CommandLine(args), blanks) == args
  {
    if args != [] {
      var tail := if |args| == 1 then "" else " " + CommandLine(args[1..]);
      var s := Quote(args[0]) + tail;
      assert s == CommandLine(args);
      ReadQuoted(args[0], tail, blanks);
      assert s[0] == Quote(args[0])[0] && SkipBlanks(s, blanks) == s;
      RoundTrip(args[1..], blanks);
      if |args| > 1 {
        assert SkipBlanks(tail, blanks) == SkipBlanks(CommandLine(args[1..]), blanks) by {
          assert tail[1..] == CommandLine(args[1..]);
        }
        assert ReadArgs(tail, blanks) == ReadArgs(CommandLine(args[1..]), blanks);
      }
    }
  }

  // ---- The program name, and where the round trip ends ----------------------

  lemma {:induction false} ReadProgramPlain(name: string, tail: string, quoted: bool, read: string, blanks: set<char>)
    requires QUOTE !in name
    requires quoted || forall c <- name :: c !in blanks
    ensures ReadProgram(name + tail, quoted, read, blanks) == ReadProgram(tail, quoted, read + name, blanks)
  {
    if name == "" {
      assert name + tail == tail && read + name == read;
    } else {
      assert name[0] in name && (name + tail)[1..] == name[1..] + tail;
      assert forall c <- name[1..] :: c in name;
      ReadProgramPlain(name[1..], tail, quoted, read + [name[0]], blanks);
      assert read + [name[0]] + name[1..] == read + name;
    }
  }

  /** Without quotes in it, an argument is escaped by doubling its last backslashes only. */
  lemma {:induction false} BodyWithoutQuotes(a: string)
    requires QUOTE !in a
    ensures QUOTE !in Body(a)
    ensures Body(a) == a <==> a == "" || a[|a| - 1] != BACKSLASH
    ensures |Body(a)| >= |a|
    decreases |a|
  {
    var n := Run(a);
    RunIsRepeat(a);
    NoQuoteInRepeat(2 * n);
    if n == |a| {
      assert a == Repeat(n);
      if n > 0 { LastOfRepeat(n); }
    } else {
      assert a[n] in a && forall c <- a[n + 1..] :: c in a;
      SplitAtRun(a);
      NoQuoteInRepeat(n);
      var rest := a[n + 1..];
      BodyWithoutQuotes(rest);
      var head := Repeat(n) + [a[n]];
      assert Body(a) == head + Body(rest) && a == head + rest;
      assert Body(a)[n + 1..] == Body(rest);
      if rest != "" { assert a[|a| - 1] == rest[|rest| - 1]; }
    }
  }

  lemma {:induction false} NoQuoteInRepeat(n: nat)
    ensures QUOTE !in Repeat(n)
  {
    if n > 0 { NoQuoteInRepeat(n - 1); }
  }

  lemma {:induction false} LastOfRepeat(n: nat)
    requires n > 0
    ensures Repeat(n)[n - 1] == BACKSLASH
  {
    if n > 1 { LastOfRepeat(n - 1); }
  }

  /** A program name in quotes is read up to its closing quote. */
  lemma QuotedProgram(program: string, tail: string, blanks: set<char>)
    requires Delimiters(blanks) && QUOTE !in program && NeedsQuotes(program)
    requires ReadProgram(tail, false, Body(program), blanks) == Parsed(Body(program), tail)
    ensures ReadProgram(Quote(program) + tail, false, "", blanks) == Parsed(Body(program), tail)
  {
    var body := Body(program);
    BodyWithoutQuotes(program);
    OpenQuote(body, tail);
    var line := Quote(program) + tail;
    assert line == [QUOTE] + (body + ([QUOTE] + tail)) && line[1..] == body + ([QUOTE] + tail);
    ReadProgramPlain(body, [QUOTE] + tail, true, "", blanks);
    assert ([QUOTE] + tail)[1..] == tail && "" + body == body;
  }

  lemma PlainProgram(program: string, tail: string, blanks: set<char>)
    requires Delimiters(blanks) && QUOTE !in program && !NeedsQuotes(program)
    requires ReadProgram(tail, false, program, blanks) == Parsed(program, tail)
    ensures ReadProgram(Quote(program) + tail, false, "", blanks) == Parsed(program, tail)
  {
    forall c | c in program ensures c !in blanks {
      var i :| 0 <= i < |program| && program[i] == c;
      assert !Special(program[i]);
    }
    ReadProgramPlain(program, tail, false, "", blanks);
    assert "" + program == program;
  }

  /** The whole command line, program name first. For a program name without quotes
      (no Windows path has one) the arguments behind it always come back; the name
      itself comes back exactly if it does not both need quoting and end in a
      backslash, because nothing is escaped in the first word. */
  lemma WholeCommandLine(program: string, args: seq<string>, blanks: set<char>)
    requires Delimiters(blanks) && QUOTE !in program
    ensures var p := ReadProgram(CommandLine([program] + args), false, "", blanks);
            && ReadArgs(p.rest, blanks) == args
            && (p.arg == program <==> !(NeedsQuotes(program) && program != "" && program[|program| - 1] == BACKSLASH))
  {
    var all := [program] + args;
    var tail := if args == [] then "" else " " + CommandLine(args);
    assert all[1..] == args;
    assert CommandLine(all) == Quote(program) + tail;
    BodyWithoutQuotes(program);
    if NeedsQuotes(program) {
      QuotedProgram(program, tail, blanks);
    } else {
      PlainProgram(program, tail, blanks);
    }
    RoundTrip(args, blanks);
    if args != [] { assert tail[1..] == CommandLine(args); }
  }

  /** The quoting is right for exactly the parsers whose delimiters it knows. A parser
      that also splits on, say, a carriage return loses an argument made of one. */
  lemma RoundTripIff(blanks: set<char>)
    requires ' ' in blanks && QUOTE !in blanks && BACKSLASH !in blanks
    ensures (forall args: seq<string> :: ReadArgs(CommandLine(args), blanks) == args)
       <==> Delimiters(blanks)
  {
    if Delimiters(blanks) {
      forall args: seq<string> ensures ReadArgs(CommandLine(args), blanks) == args { RoundTrip(args, blanks); }
    } else {
      var c :| c in blanks && !Separator(c);
      var a: string := [c];
      assert !NeedsQuotes(a) && CommandLine([a]) == a;
      assert a[1..] == "" && SkipBlanks(a, blanks) == "";
      assert ReadArgs(CommandLine([a]), blanks) != [a];
    }
  }
}
