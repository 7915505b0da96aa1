/** Building the worker's command line, and the documented rules by which the worker's
    C runtime splits it again ("Parsing C command-line arguments", Microsoft). */
module CommandLine {
  import opened Basics

  function Backslashes(n: nat): (r: string)
    ensures |r| == n && forall k | 0 <= k < n :: r[k] == '\\'
  {
    seq(n, _ => '\\')
  }

  predicate NeedsQuotes(c: char) {
    c == ' ' || c == '\t' || c == '\n' || c == (11 as char) || c == '\"'
  }

  predicate IsPlain(value: string) {
    value != "" && forall k | 0 <= k < |value| :: !NeedsQuotes(value[k])
  }

  /** The escaped characters of value when n backslashes are pending, up to and
      including the closing quotation mark. */
  function Escaped(value: string, n: nat): string
    decreases |value|
  {
    if value == "" then Backslashes(n * 2) + "\""
    else if value[0] == '\\' then Escaped(value[1..], n + 1)
    else if value[0] == '\"' then Backslashes(n * 2 + 1) + "\"" + Escaped(value[1..], 0)
    else Backslashes(n) + [value[0]] + Escaped(value[1..], 0)
  }

  function Quoted(value: string): string {
    if IsPlain(value) then value
    else if value == "" then "\"\""
    else "\"" + Escaped(value, 0)
  }

  /** quote_argument: the scan with its backslash counter. */
  method QuoteArgument(value: string) returns (result: string)
    ensures result == Quoted(value)
  {
    if value == "" {
      return "\"\"";
    }
    var plain := forall k | 0 <= k < |value| :: !NeedsQuotes(value[k]);
    if plain {
      return value;
    }
    result := "\"";
    var backslashes := 0;
    assert value[0..] == value;
    for i := 0 to |value|
      invariant result + Escaped(value[i..], backslashes) == "\"" + Escaped(value, 0)
    {
      var character := value[i];
      assert value[i..][1..] == value[i + 1..];
      ghost var before, pending := result, backslashes;
      if character == '\\' {
        backslashes := backslashes + 1;
      } else if character == '\"' {
        result := result + Backslashes(backslashes * 2 + 1);
        result := result + "\"";
        backslashes := 0;
        assert result + Escaped(value[i + 1..], 0) ==
          before + (Backslashes(pending * 2 + 1) + "\"" + Escaped(value[i + 1..], 0));
      } else {
        result := result + Backslashes(backslashes);
        backslashes := 0;
        result := result + [character];
        assert result + Escaped(value[i + 1..], 0) ==
          before + (Backslashes(pending) + [character] + Escaped(value[i + 1..], 0));
      }
    }
    assert value[|value|..] == "";
    ghost var before := result;
    result := result + Backslashes(backslashes * 2);
    result := result + "\"";
    assert result == before + (Backslashes(backslashes * 2) + "\"");
  }

  /** The space-joined, quoted arguments that follow the program name. */
  function Joined(arguments: seq<string>): string {
    if arguments == [] then ""
    else " " + Quoted(arguments[0]) + Joined(arguments[1..])
  }

  lemma {:induction false} JoinedAppend(xs: seq<string>, x: string)
    ensures Joined(xs + [x]) == Joined(xs) + (" " + Quoted(x))
  {
    if xs == [] {
      assert [x][1..] == [];
    } else {
      assert (xs + [x])[1..] == xs[1..] + [x];
      JoinedAppend(xs[1..], x);
      assert " " + Quoted(xs[0]) + (Joined(xs[1..]) + (" " + Quoted(x))) ==
        (" " + Quoted(xs[0]) + Joined(xs[1..])) + (" " + Quoted(x));
    }
  }

  /** The command-line assembly in IpcHost::initialize. */
  method BuildCommandLine(executable: string, arguments: seq<string>) returns (commandLine: string)
    ensures commandLine == Quoted(executable) + Joined(arguments)
  {
    hide Quoted;
    commandLine := QuoteArgument(executable);
    assert arguments[..0] == [] && Joined([]) == "";
    for i := 0 to |arguments|
      invariant commandLine == Quoted(executable) + Joined(arguments[..i])
    {
      ghost var before := commandLine;
      commandLine := commandLine + " ";
      var quoted := QuoteArgument(arguments[i]);
      commandLine := commandLine + quoted;
      Assoc(before, " ", quoted);
      assert arguments[..i + 1] == arguments[..i] + [arguments[i]];
      JoinedAppend(arguments[..i], arguments[i]);
      Assoc(Quoted(executable), Joined(arguments[..i]), " " + quoted);
    }
    assert arguments[..|arguments|] == arguments;
  }

  // --------------------------------------------------------- the splitting rules

  predicate IsBlank(c: char) {
    c == ' ' || c == '\t'
  }

  /** The length of the run of backslashes at the front. */
  function Leading(s: string): (n: nat)
    ensures n <= |s|
    ensures s[..n] == Backslashes(n) && forall k | 0 <= k < n :: s[k] == '\\'
    ensures n < |s| ==> s[n] != '\\'
  {
    if s == "" || s[0] != '\\' then 0
    else
      var n := Leading(s[1..]);
      assert s[1..][..n] == s[1..n + 1];
      n + 1
  }

  /** Split off one argument; quoted tells whether a quoted part is open.  Backslashes
      are literal unless a quotation mark follows the run: then each pair stands for
      one, and an odd one makes the mark literal.  A doubled mark inside a quoted part
      is one literal mark. */
  function ParseArgument(s: string, quoted: bool): (r: (string, string))
    ensures |r.1| <= |s|
    ensures s != "" && !IsBlank(s[0]) ==> |r.1| < |s|
    decreases |s|
  {
    if s == "" then ("", "")
    else
      var n := Leading(s);
      if 0 < n then
        if n < |s| && s[n] == '\"' then
          if n % 2 == 0 then
            var (argument, rest) := ParseArgument(s[n..], quoted);
            (Backslashes(n / 2) + argument, rest)
          else
            var (argument, rest) := ParseArgument(s[n + 1..], quoted);
            (Backslashes(n / 2) + "\"" + argument, rest)
        else
          var (argument, rest) := ParseArgument(s[n..], quoted);
          (Backslashes(n) + argument, rest)
      else if s[0] == '\"' then
        if quoted && 1 < |s| && s[1] == '\"' then
          var (argument, rest) := ParseArgument(s[2..], true);
          ("\"" + argument, rest)
        else ParseArgument(s[1..], !quoted)
      else if !quoted && IsBlank(s[0]) then ("", s)
      else
        var (argument, rest) := ParseArgument(s[1..], quoted);
        ([s[0]] + argument, rest)
  }

  function ParseArguments(s: string): seq<string>
    decreases |s|
  {
    if s == "" then []
    else if IsBlank(s[0]) then ParseArguments(s[1..])
    else
      var (argument, rest) := ParseArgument(s, false);
      [argument] + ParseArguments(rest)
  }

  /** argv[0]: quotation marks only protect blanks; backslashes mean nothing. */
  function ParseProgram(s: string, quoted: bool): (r: (string, string))
    decreases |s|
  {
    if s == "" then ("", "")
    else if s[0] == '\"' then ParseProgram(s[1..], !quoted)
    else if !quoted && IsBlank(s[0]) then ("", s)
    else
      var (program, rest) := ParseProgram(s[1..], quoted);
      ([s[0]] + program, rest)
  }

  function ParseCommandLine(s: string): seq<string> {
    var (program, rest) := ParseProgram(s, false);
    [program] + ParseArguments(rest)
  }

  // --------------------------------------------------------------- round trip

  /** What can follow a quoted argument on the command line. */
  predicate IsTail(s: string) {
    s == "" || s[0] == ' '
  }

  lemma {:induction false} LeadingRun(n: nat, t: string)
    requires t == "" || t[0] != '\\'
    ensures Leading(Backslashes(n) + t) == n
  {
    var s := Backslashes(n) + t;
    if 0 < n {
      assert s[1..] == Backslashes(n - 1) + t;
      LeadingRun(n - 1, t);
    } else {
      assert s == t;
    }
  }

  lemma ParseTail(tail: string)
    requires IsTail(tail)
    ensures ParseArgument(tail, false) == ("", tail)
  {
    if tail != "" {
      LeadingRun(0, tail);
      assert Backslashes(0) + tail == tail;
    }
  }

  /** How a run of backslashes in front of t reads. */
  lemma ParseRun(n: nat, t: string, quoted: bool)
    requires t == "" || t[0] != '\\'
    ensures t != "" && t[0] == '\"' && n % 2 == 1 ==>
      var (argument, rest) := ParseArgument(t[1..], quoted);
      ParseArgument(Backslashes(n) + t, quoted) == (Backslashes(n / 2) + "\"" + argument, rest)
    ensures t != "" && t[0] == '\"' && n % 2 == 0 ==>
      var (argument, rest) := ParseArgument(t, quoted);
      ParseArgument(Backslashes(n) + t, quoted) == (Backslashes(n / 2) + argument, rest)
    ensures t == "" || t[0] != '\"' ==>
      var (argument, rest) := ParseArgument(t, quoted);
      ParseArgument(Backslashes(n) + t, quoted) == (Backslashes(n) + argument, rest)
  {
    if n == 0 {
      hide ParseArgument;
      assert Backslashes(0) + t == t;
      assert Backslashes(0) + ParseArgument(t, quoted).0 == ParseArgument(t, quoted).0;
    } else {
      hide Leading;
      RunSplits(n, t);
    }
  }

  lemma RunSplits(n: nat, t: string)
    requires t == "" || t[0] != '\\'
    ensures var s := Backslashes(n) + t;
      && Leading(s) == n && n <= |s| && s[n..] == t
      && (n < |s| <==> t != "") && (t != "" ==> s[n] == t[0] && s[n + 1..] == t[1..])
  {
    LeadingRun(n, t);
  }

  lemma ParseClosingMark(tail: string)
    requires IsTail(tail)
    ensures ParseArgument("\"" + tail, true) == ("", tail)
  {
    var t := "\"" + tail;
    LeadingRun(0, t);
    assert Backslashes(0) + t == t;
    assert t[1..] == tail;
    ParseTail(tail);
  }

  /** An ordinary character stands for itself, and so does a blank inside a quoted part. */
  lemma ParseCharacter(c: char, inner: string, quoted: bool)
    requires c != '\\' && c != '\"' && (quoted || !IsBlank(c))
    ensures ParseArgument([c] + inner, quoted) ==
      ([c] + ParseArgument(inner, quoted).0, ParseArgument(inner, quoted).1)
  {
    var t := [c] + inner;
    LeadingRun(0, t);
    assert Backslashes(0) + t == t;
    assert t[1..] == inner;
  }

  lemma {:induction false} ParsePlain(value: string, tail: string)
    requires IsTail(tail) && forall k | 0 <= k < |value| :: !NeedsQuotes(value[k])
    ensures ParseArgument(value + tail, false) == (value, tail)
    decreases |value|
  {
    hide ParseArgument;
    if value == "" {
      assert value + tail == tail;
      ParseTail(tail);
    } else if value[0] == '\\' {
      var n := Leading(value);
      var rest := value[n..];
      assert value == Backslashes(n) + rest;
      ParsePlain(rest, tail);
      ParseRun(n, rest + tail, false);
      Assoc(Backslashes(n), rest, tail);
    } else {
      var rest := value[1..];
      ParsePlain(rest, tail);
      ParseCharacter(value[0], rest + tail, false);
      assert value == [value[0]] + rest;
      Assoc([value[0]], rest, tail);
    }
  }

  lemma EscapedEnd(n: nat, tail: string)
    requires IsTail(tail)
    ensures ParseArgument(Escaped("", n) + tail, true) == (Backslashes(n), tail)
  {
    hide ParseArgument, Leading;
    var t := "\"" + tail;
    var run := Backslashes(n * 2);
    Assoc(run, "\"", tail);
    ParseRun(n * 2, t, true);
    ParseClosingMark(tail);
    assert Backslashes(n) + "" == Backslashes(n);
  }

  lemma EscapedOfMark(value: string, n: nat)
    requires value != "" && value[0] == '\"'
    ensures Escaped(value, n) == Backslashes(n * 2 + 1) + "\"" + Escaped(value[1..], 0)
  {
  }

  lemma EscapedMark(value: string, n: nat, tail: string)
    requires value != "" && value[0] == '\"'
    requires ParseArgument(Escaped(value[1..], 0) + tail, true) == (value[1..], tail)
    ensures ParseArgument(Escaped(value, n) + tail, true) == (Backslashes(n) + value, tail)
  {
    hide ParseArgument, Leading, Escaped, Backslashes, IsTail;
    EscapedOfMark(value, n);
    var run, inner := Backslashes(n * 2 + 1), Escaped(value[1..], 0);
    var t := "\"" + (inner + tail);
    assert t[1..] == inner + tail;
    Assoc(run + "\"", inner, tail);
    Assoc(run, "\"", inner + tail);
    ParseRun(n * 2 + 1, t, true);
    assert (n * 2 + 1) / 2 == n && (n * 2 + 1) % 2 == 1;
    Assoc(Backslashes(n), "\"", value[1..]);
    assert "\"" + value[1..] == value;
  }

  lemma EscapedCharacter(value: string, n: nat, tail: string)
    requires value != "" && value[0] != '\"' && value[0] != '\\'
    requires ParseArgument(Escaped(value[1..], 0) + tail, true) == (value[1..], tail)
    ensures ParseArgument(Escaped(value, n) + tail, true) == (Backslashes(n) + value, tail)
  {
    hide ParseArgument, Leading;
    var inner := Escaped(value[1..], 0) + tail;
    var t := [value[0]] + inner;
    Assoc(Backslashes(n) + [value[0]], Escaped(value[1..], 0), tail);
    Assoc(Backslashes(n), [value[0]], inner);
    ParseRun(n, t, true);
    ParseCharacter(value[0], inner, true);
    assert [value[0]] + value[1..] == value;
  }

  /** Inside an open quoted part, reading back the escaped text gives the text. */
  lemma {:induction false} ParseEscaped(value: string, n: nat, tail: string)
    requires IsTail(tail)
    ensures ParseArgument(Escaped(value, n) + tail, true) == (Backslashes(n) + value, tail)
    decreases |value|
  {
    hide ParseArgument, Leading;
    if value == "" {
      EscapedEnd(n, tail);
      assert Backslashes(n) + value == Backslashes(n);
    } else if value[0] == '\\' {
      ParseEscaped(value[1..], n + 1, tail);
      assert Backslashes(n + 1) + value[1..] == Backslashes(n) + value;
    } else {
      ParseEscaped(value[1..], 0, tail);
      assert Backslashes(0) + value[1..] == value[1..];
      if value[0] == '\"' {
        EscapedMark(value, n, tail);
      } else {
        EscapedCharacter(value, n, tail);
      }
    }
  }

  lemma ParseOpeningMark(inner: string)
    ensures ParseArgument("\"" + inner, false) == ParseArgument(inner, true)
  {
    var t := "\"" + inner;
    LeadingRun(0, t);
    assert Backslashes(0) + t == t;
    assert t[1..] == inner;
  }

  /** One quoted argument reads back as itself, whatever it contains. */
  lemma ParseQuoted(value: string, tail: string)
    requires IsTail(tail)
    ensures ParseArgument(Quoted(value) + tail, false) == (value, tail)
    ensures Quoted(value) != "" && !IsBlank(Quoted(value)[0])
  {
    if IsPlain(value) {
      ParsePlain(value, tail);
    } else {
      hide ParseArgument, Leading;
      var inner := Escaped(value, 0) + tail;
      assert Quoted(value) + tail == "\"" + inner by {
        assert Escaped("", 0) == "\"";
      }
      ParseOpeningMark(inner);
      ParseEscaped(value, 0, tail);
      assert Backslashes(0) + value == value;
    }
  }

  lemma {:induction false} ParseJoined(arguments: seq<string>)
    ensures ParseArguments(Joined(arguments)) == arguments
    decreases |arguments|
  {
    if arguments != [] {
      hide Quoted, ParseArgument;
      var tail := Joined(arguments[1..]);
      var s := Quoted(arguments[0]) + tail;
      assert Joined(arguments) == " " + s;
      ParseQuoted(arguments[0], tail);
      ParseJoined(arguments[1..]);
      ParseNext(s, arguments[0], tail);
    }
  }

  lemma ParseNext(s: string, argument: string, tail: string)
    requires s != "" && !IsBlank(s[0]) && ParseArgument(s, false) == (argument, tail)
    ensures ParseArguments(" " + s) == [argument] + ParseArguments(tail)
  {
    hide ParseArgument;
    assert (" " + s)[1..] == s;
    assert ParseArguments(" " + s) == ParseArguments(s);
  }

  predicate HasNoQuote(s: string) {
    forall k | 0 <= k < |s| :: s[k] != '\"'
  }

  lemma {:induction false} ParseProgramText(text: string, quoted: bool, tail: string)
    requires HasNoQuote(text)
    requires !quoted ==> forall k | 0 <= k < |text| :: !IsBlank(text[k])
    ensures ParseProgram(text + tail, quoted) ==
      (text + ParseProgram(tail, quoted).0, ParseProgram(tail, quoted).1)
    decreases |text|
  {
    if text == "" {
      assert text + tail == tail;
      assert text + ParseProgram(tail, quoted).0 == ParseProgram(tail, quoted).0;
    } else {
      assert (text + tail)[1..] == text[1..] + tail;
      ParseProgramText(text[1..], quoted, tail);
      assert [text[0]] + (text[1..] + ParseProgram(tail, quoted).0) == text + ParseProgram(tail, quoted).0;
    }
  }

  /** m is the length of the final run of backslashes. */
  ghost predicate EndsIn(s: string, m: nat) {
    && m <= |s| && s[|s| - m..] == Backslashes(m)
    && (m < |s| ==> s[|s| - m - 1] != '\\')
  }

  /** An ordinary character stops the run, whatever precedes it. */
  lemma EndsInBehind(s: string, t: string, m: nat)
    requires t != "" && t[0] != '\\' && EndsIn(t[1..], m)
    ensures EndsIn(s + t, m)
  {
    var whole := s + t;
    assert whole[|whole| - m..] == t[1..][|t[1..]| - m..];
  }

  lemma EscapeOrdinary(value: string, n: nat)
    requires value != "" && value[0] != '\\' && value[0] != '\"'
    ensures Escaped(value, n) == Backslashes(n) + ([value[0]] + Escaped(value[1..], 0))
  {
    Assoc(Backslashes(n), [value[0]], Escaped(value[1..], 0));
  }

  lemma EscapeBackslash(value: string, n: nat)
    requires value != "" && value[0] == '\\'
    ensures Escaped(value, n) == Escaped(value[1..], n + 1)
    ensures Backslashes(n + 1) + value[1..] == Backslashes(n) + value
  {
  }

  lemma EscapeEnd(n: nat)
    ensures Escaped("", n) == Backslashes(n) + Backslashes(n) + "\""
    ensures EndsIn(Backslashes(n), n)
  {
    assert Backslashes(n * 2) == Backslashes(n) + Backslashes(n);
  }

  /** Without quotation marks, escaping doubles exactly the final run of backslashes. */
  lemma {:induction false} EscapedWithoutQuote(value: string, n: nat) returns (m: nat)
    requires HasNoQuote(value)
    ensures Escaped(value, n) == Backslashes(n) + value + Backslashes(m) + "\""
    ensures EndsIn(Backslashes(n) + value, m)
    decreases |value|
  {
    hide Escaped, Backslashes, EndsIn;
    if value == "" {
      m := n;
      EscapeEnd(n);
      assert Backslashes(n) + "" == Backslashes(n);
    } else if value[0] == '\\' {
      m := EscapedWithoutQuote(value[1..], n + 1);
      EscapeBackslash(value, n);
    } else {
      m := EscapedWithoutQuote(value[1..], 0);
      NoBackslashes(value[1..]);
      EscapeOrdinary(value, n);
      EndsInBehind(Backslashes(n), value, m);
      var inner := value[1..] + Backslashes(m) + "\"";
      assert Backslashes(n) + ([value[0]] + inner) == Backslashes(n) + value + Backslashes(m) + "\"";
    }
  }

  lemma NoBackslashes(s: string)
    ensures Backslashes(0) + s == s
  {
  }

  /** The whole command line.  A file name contains no quotation mark, and
      initialize refuses an empty one.  Then the worker receives exactly the intended
      arguments after argv[0]; argv[0] itself is the program name, followed by a copy
      of its final run of backslashes when the name had to be quoted. */
  lemma CommandLineRoundTrip(executable: string, arguments: seq<string>) returns (extra: nat)
    requires executable != "" && HasNoQuote(executable)
    ensures ParseCommandLine(Quoted(executable) + Joined(arguments)) ==
      [executable + Backslashes(extra)] + arguments
    ensures if IsPlain(executable) then extra == 0 else EndsIn(executable, extra)
  {
    hide EndsIn;
    var tail := Joined(arguments);
    ParseJoined(arguments);
    assert ParseProgram(tail, false) == ("", tail);
    hide Joined, ParseArguments;
    if IsPlain(executable) {
      extra := 0;
      ParseProgramText(executable, false, tail);
      assert executable + "" == executable + Backslashes(0);
    } else {
      extra := EscapedWithoutQuote(executable, 0);
      assert Backslashes(0) + executable == executable;
      var text := executable + Backslashes(extra);
      var t := text + ("\"" + tail);
      assert Quoted(executable) + tail == "\"" + t by {
        assert Backslashes(0) + executable == executable;
      }
      assert ("\"" + t)[1..] == t;
      assert ("\"" + tail)[1..] == tail;
      ParseProgramText(text, true, "\"" + tail);
      assert text + "" == text;
    }
  }

  lemma {:induction false} EscapedIsLonger(value: string, n: nat)
    ensures |value| + n < |Escaped(value, n)|
    decreases |value|
  {
    if value != "" {
      EscapedIsLonger(value[1..], if value[0] == '\\' then n + 1 else 0);
    }
  }

  /** An argument goes onto the command line as it is exactly if it is not empty and has no blank,
      tab, new line, vertical tab or quotation mark. */
  lemma QuotedOnlyIfNeeded(value: string)
    ensures Quoted(value) == value <==>
            value != "" && forall k | 0 <= k < |value| :: value[k] as int !in {32, 9, 10, 11, 34}
  {
    EscapedIsLonger(value, 0);
    hide Escaped;
    assert '\"' as int == 34;
  }
}
