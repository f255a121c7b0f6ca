/**
  Quoting of Windows command-line arguments, in both of its implementations, and
  the rules of Microsoft's "Parsing C command-line arguments" that undo it for
  the arguments that follow the program name.
*/
module Quoting {
  // --------------------------------------------------------------- the rules

  /** How many backslashes a text starts with. */
  function Leading(text: string): (n: nat)
    ensures n <= |text|
  {
    if text == "" || text[0] != '\\' then 0 else 1 + Leading(text[1..])
  }

  function Backslashes(n: nat): (text: string)
    ensures |text| == n
  {
    seq(n, i => '\\')
  }

  predicate Blank(c: char) {
    c == ' ' || c == '\t'
  }

  /** One argument and the text after it; `quoted` says whether the text starts inside quotation marks. */
  function Argument(text: string, quoted: bool): (r: (string, string))
    ensures |r.1| <= |text|
    ensures text != "" && (quoted || !Blank(text[0])) ==> |r.1| < |text|
    decreases |text|
  {
    var n := Leading(text);
    var rest := text[n..];
    if rest == "" then (Backslashes(n), "")
    else if rest[0] == '"' then
      if n % 2 == 1 then
        var more := Argument(rest[1..], quoted);
        (Backslashes(n / 2) + "\"" + more.0, more.1)
      else if quoted && |rest| > 1 && rest[1] == '"' then
        var more := Argument(rest[2..], quoted);
        (Backslashes(n / 2) + "\"" + more.0, more.1)
      else
        var more := Argument(rest[1..], !quoted);
        (Backslashes(n / 2) + more.0, more.1)
    else if !quoted && Blank(rest[0]) then (Backslashes(n), rest)
    else
      var more := Argument(rest[1..], quoted);
      (Backslashes(n) + [rest[0]] + more.0, more.1)
  }

  /** Every argument of a text that follows the program name. */
  function Arguments(text: string): seq<string>
    decreases |text|
  {
    if text == "" then []
    else if Blank(text[0]) then Arguments(text[1..])
    else
      var first := Argument(text, false);
      [first.0] + Arguments(first.1)
  }

  // ----------------------------------------------------------------- quoting

  function Escaped(text: string): string
    decreases |text|
  {
    var n := Leading(text);
    if n == |text| then Backslashes(2 * n)
    else if text[n] == '"' then Backslashes(2 * n + 1) + "\"" + Escaped(text[n + 1..])
    else Backslashes(n) + [text[n]] + Escaped(text[n + 1..])
  }

  function Quoted(text: string): string {
    "\"" + Escaped(text) + "\""
  }

  /** What is appended to the program name. */
  function Tail(arguments: seq<string>): string {
    if arguments == [] then "" else " " + Quoted(arguments[0]) + Tail(arguments[1..])
  }

  lemma {:induction false} LeadingOf(n: nat, rest: string)
    requires rest == "" || rest[0] != '\\'
    ensures Leading(Backslashes(n) + rest) == n && (Backslashes(n) + rest)[n..] == rest
  {
    var text := Backslashes(n) + rest;
    if n > 0 {
      LeadingOf(n - 1, rest);
      assert text[1..] == Backslashes(n - 1) + rest;
    } else {
      assert text == rest;
    }
  }

  lemma EscapedStep(n: nat, c: char, rest: string)
    requires c != '\\'
    ensures Escaped(Backslashes(n) + [c] + rest) ==
            (if c == '"' then Backslashes(2 * n + 1) + "\"" else Backslashes(n) + [c]) + Escaped(rest)
  {
    var text := Backslashes(n) + [c] + rest;
    assert text == Backslashes(n) + ([c] + rest);
    LeadingOf(n, [c] + rest);
    assert text[n + 1..] == rest;
  }

  lemma EscapedEnd(n: nat)
    ensures Escaped(Backslashes(n)) == Backslashes(2 * n)
  {
    LeadingOf(n, "");
    assert Backslashes(n) + "" == Backslashes(n);
  }

  lemma BlankEndsArgument(rest: string)
    requires rest == "" || Blank(rest[0])
    ensures Argument(rest, false) == ("", rest)
  {
    assert Leading(rest) == 0;
    assert rest[0..] == rest;
  }

  // What the rules say of a text in each form that quoting produces.

  lemma OddBackslashesQuoteTheMark(n: nat, more: string, quoted: bool)
    ensures var next := Argument(more, quoted);
            Argument(Backslashes(2 * n + 1) + "\"" + more, quoted) == (Backslashes(n) + "\"" + next.0, next.1)
  {
    var rest := "\"" + more;
    assert Backslashes(2 * n + 1) + "\"" + more == Backslashes(2 * n + 1) + rest;
    LeadingOf(2 * n + 1, rest);
    hide Leading, Backslashes;
    assert (2 * n + 1) / 2 == n && (2 * n + 1) % 2 == 1;
    assert rest[1..] == more;
  }

  lemma EvenBackslashesLeaveTheMark(n: nat, more: string)
    requires more == "" || Blank(more[0])
    ensures Argument(Backslashes(2 * n) + "\"" + more, true) == (Backslashes(n), more)
  {
    var rest := "\"" + more;
    assert Backslashes(2 * n) + "\"" + more == Backslashes(2 * n) + rest;
    LeadingOf(2 * n, rest);
    BlankEndsArgument(more);
    hide Leading, Backslashes;
    assert 2 * n / 2 == n && 2 * n % 2 == 0;
    assert rest[1..] == more && Backslashes(n) + "" == Backslashes(n);
  }

  lemma OthersStandForThemselves(n: nat, c: char, more: string, quoted: bool)
    requires c != '\\' && c != '"' && (quoted || !Blank(c))
    ensures var next := Argument(more, quoted);
            Argument(Backslashes(n) + [c] + more, quoted) == (Backslashes(n) + [c] + next.0, next.1)
  {
    var rest := [c] + more;
    assert Backslashes(n) + [c] + more == Backslashes(n) + rest;
    LeadingOf(n, rest);
    hide Leading, Backslashes;
    assert rest[1..] == more;
  }

  /** A text is a run of backslashes, or one followed by another character and more. */
  lemma {:induction false} Decomposed(text: string)
    ensures var n := Leading(text);
            if n == |text| then text == Backslashes(n)
            else text == Backslashes(n) + [text[n]] + text[n + 1..] && text[n] != '\\'
  {
    var n := Leading(text);
    if n > 0 {
      Decomposed(text[1..]);
      assert Backslashes(n) == "\\" + Backslashes(n - 1);
      assert text == "\\" + text[1..];
      if n < |text| {
        assert text[1..][n..] == text[n + 1..];
      }
    }
  }

  /** Inside quotation marks, the escaped text reads back as itself and the mark that follows ends it. */
  lemma {:induction false} EscapedReadsBack(text: string, rest: string)
    requires rest == "" || Blank(rest[0])
    ensures Argument(Escaped(text) + "\"" + rest, true) == (text, rest)
    decreases |text|
  {
    hide Argument, Escaped, Leading, Backslashes;
    var n := Leading(text);
    Decomposed(text);
    if n == |text| {
      EscapedEnd(n);
      EvenBackslashesLeaveTheMark(n, rest);
    } else {
      var c, tail := text[n], text[n + 1..];
      var more := Escaped(tail) + "\"" + rest;
      EscapedStep(n, c, tail);
      EscapedReadsBack(tail, rest);
      if c == '"' {
        OddBackslashesQuoteTheMark(n, more, true);
        assert Escaped(text) + "\"" + rest == Backslashes(2 * n + 1) + "\"" + more;
      } else {
        OthersStandForThemselves(n, c, more, true);
        assert Escaped(text) + "\"" + rest == Backslashes(n) + [c] + more;
      }
    }
  }

  /** A quoted argument is read as one argument, whatever it contains. */
  lemma QuotedReadsBack(text: string, rest: string)
    requires rest == "" || Blank(rest[0])
    ensures Argument(Quoted(text) + rest, false) == (text, rest)
  {
    hide Argument, Escaped;
    var all, more := Quoted(text) + rest, Escaped(text) + "\"" + rest;
    EscapedReadsBack(text, rest);
    MarkOpens(more);
    assert all == "\"" + more;
  }

  lemma MarkOpens(more: string)
    ensures Argument("\"" + more, false) == Argument(more, true)
  {
    var all := "\"" + more;
    assert Leading(all) == 0 && all[0..] == all && all[1..] == more;
    hide Leading;
    var next := Argument(more, true);
    assert Backslashes(0) + next.0 == next.0;
  }

  lemma TailStartsBlank(arguments: seq<string>)
    ensures Tail(arguments) == "" || Blank(Tail(arguments)[0])
  {
  }

  lemma NextArgument(first: string, after: string)
    requires after == "" || Blank(after[0])
    ensures Arguments(" " + Quoted(first) + after) == [first] + Arguments(after)
  {
    hide Argument, Escaped;
    var all, text := " " + Quoted(first) + after, Quoted(first) + after;
    assert all[1..] == text;
    assert Arguments(all) == Arguments(text);
    QuotedReadsBack(first, after);
  }

  /** The round trip: the arguments come back, followed by whatever the rest of the line says. */
  lemma {:induction false} TailReadsBack(arguments: seq<string>, rest: string)
    requires rest == "" || Blank(rest[0])
    ensures Arguments(Tail(arguments) + rest) == arguments + Arguments(rest)
  {
    hide Arguments, Argument, Escaped, Quoted, Blank;
    if arguments == [] {
      assert Tail(arguments) + rest == rest;
    } else {
      var after := Tail(arguments[1..]) + rest;
      assert after == "" || Blank(after[0]) by { TailStartsBlank(arguments[1..]); }
      assert Tail(arguments) + rest == " " + Quoted(arguments[0]) + after;
      NextArgument(arguments[0], after);
      TailReadsBack(arguments[1..], rest);
      assert arguments == [arguments[0]] + arguments[1..];
    }
  }

  // --------------------------------------------------------- implementations

  /** What is still to be written when `slashes` backslashes have been counted and `rest` is to come. */
  function Pending(slashes: nat, rest: string): string {
    Escaped(Backslashes(slashes) + rest)
  }

  lemma PendingStep(slashes: nat, c: char, rest: string)
    ensures Pending(slashes, [c] + rest) ==
            (if c == '\\' then Pending(slashes + 1, rest)
             else Backslashes(slashes * (if c == '"' then 2 else 1)) + (if c == '"' then "\\" else "") + [c] + Pending(0, rest))
  {
    hide Escaped, Leading;
    assert Backslashes(0) + rest == rest;
    if c == '\\' {
      assert Backslashes(slashes) + ([c] + rest) == Backslashes(slashes + 1) + rest;
    } else {
      assert Backslashes(slashes) + ([c] + rest) == Backslashes(slashes) + [c] + rest;
      EscapedStep(slashes, c, rest);
      assert Backslashes(2 * slashes + 1) == Backslashes(slashes * 2) + "\\";
    }
  }

  lemma PendingEnds(slashes: nat, text: string)
    ensures Pending(slashes, "") == Backslashes(slashes * 2) && Pending(0, text) == Escaped(text)
  {
    EscapedEnd(slashes);
    hide Escaped;
    assert Backslashes(slashes) + "" == Backslashes(slashes);
    assert Backslashes(0) + text == text;
  }

  /** Quote in WorkerLaunch.cpp */
  method QuoteForWorker(argument: string) returns (quoted: string)
    ensures quoted == Quoted(argument)
  {
    hide Pending, Escaped, Backslashes;
    quoted := "\"";
    var slashes := 0;
    PendingEnds(0, argument);
    assert argument[0..] == argument;
    for i := 0 to |argument|
      invariant quoted + Pending(slashes, argument[i..]) == "\"" + Escaped(argument)
    {
      var value := argument[i];
      assert argument[i..] == [value] + argument[i + 1..];
      PendingStep(slashes, value, argument[i + 1..]);
      if value == '\\' {
        slashes := slashes + 1;
        continue;
      }
      quoted := quoted + Backslashes(slashes * (if value == '"' then 2 else 1));
      slashes := 0;
      if value == '"' {
        quoted := quoted + "\\";
      }
      quoted := quoted + [value];
    }
    PendingEnds(slashes, argument);
    quoted := quoted + Backslashes(slashes * 2);
    quoted := quoted + "\"";
  }

  /** quote in TreeProcess.cpp */
  method QuoteForTree(value: string) returns (out: string)
    ensures out == Quoted(value)
  {
    hide Pending, Escaped, Backslashes;
    out := "\"";
    var slashes := 0;
    PendingEnds(0, value);
    assert value[0..] == value;
    for i := 0 to |value|
      invariant out + Pending(slashes, value[i..]) == "\"" + Escaped(value)
    {
      var c := value[i];
      assert value[i..] == [c] + value[i + 1..];
      PendingStep(slashes, c, value[i + 1..]);
      if c == '\\' {
        slashes := slashes + 1;
        continue;
      }
      out := out + Backslashes(slashes * (if c == '"' then 2 else 1));
      if c == '"' {
        out := out + "\\";
      }
      out := out + [c];
      slashes := 0;
    }
    PendingEnds(slashes, value);
    out := out + Backslashes(slashes * 2) + "\"";
  }

  lemma {:induction false} TailAppends(arguments: seq<string>, last: string)
    ensures Tail(arguments + [last]) == Tail(arguments) + " " + Quoted(last)
  {
    if arguments == [] {
      assert arguments + [last] == [last];
      assert Tail([last]) == " " + Quoted(last) + Tail([]);
    } else {
      assert (arguments + [last])[1..] == arguments[1..] + [last];
      TailAppends(arguments[1..], last);
    }
  }

  /** The command line of a supervised tool: after the program name, exactly its arguments. */
  method TreeCommand(program: string, arguments: seq<string>) returns (command: string, name: nat)
    ensures name <= |command| && command[..name] == Quoted(program)
    ensures Arguments(command[name..]) == arguments
  {
    assert Arguments("") == [];
    hide Quoted, Argument, Arguments;
    command := QuoteForTree(program);
    name := |command|;
    for i := 0 to |arguments|
      invariant command == Quoted(program) + Tail(arguments[..i])
    {
      var quoted := QuoteForTree(arguments[i]);
      assert arguments[..i + 1] == arguments[..i] + [arguments[i]];
      TailAppends(arguments[..i], arguments[i]);
      command := command + (" " + quoted);
    }
    assert arguments[..|arguments|] == arguments;
    assert command[name..] == Tail(arguments) + "";
    TailReadsBack(arguments, "");
  }

  /** The command line of a worker: its arguments, then the option that carries the bootstrap handle. */
  method WorkerCommand(executable: string, arguments: seq<string>, handle: string) returns (command: string, name: nat)
    requires handle != "" && forall c :: c in handle ==> '0' <= c <= '9'
    ensures name <= |command| && command[..name] == Quoted(executable)
    ensures Arguments(command[name..]) == arguments + ["--artest-bootstrap", handle]
  {
    hide Quoted, Argument, Arguments;
    command := QuoteForWorker(executable);
    name := |command|;
    for i := 0 to |arguments|
      invariant command == Quoted(executable) + Tail(arguments[..i])
    {
      var quoted := QuoteForWorker(arguments[i]);
      assert arguments[..i + 1] == arguments[..i] + [arguments[i]];
      TailAppends(arguments[..i], arguments[i]);
      command := command + (" " + quoted);
    }
    assert arguments[..|arguments|] == arguments;
    var option := " --artest-bootstrap " + handle;
    command := command + option;
    assert command[name..] == Tail(arguments) + option;
    TailReadsBack(arguments, option);
    PlainOption(handle);
  }

  predicate Plain(text: string) {
    text != "" && forall c :: c in text ==> c != '\\' && c != '"' && !Blank(c)
  }

  lemma {:induction false} PlainReadsBack(text: string, rest: string)
    requires text == "" || Plain(text)
    requires rest == "" || Blank(rest[0])
    ensures Argument(text + rest, false) == (text, rest)
  {
    hide Argument;
    if text == "" {
      assert text + rest == rest;
      BlankEndsArgument(rest);
    } else {
      PlainReadsBack(text[1..], rest);
      assert text[0] in text;
      OthersStandForThemselves(0, text[0], text[1..] + rest, false);
      assert Backslashes(0) + [text[0]] + (text[1..] + rest) == text + rest;
      assert Backslashes(0) + [text[0]] + text[1..] == text;
    }
  }

  lemma DigitsArePlain(text: string)
    requires text != "" && forall c :: c in text ==> '0' <= c <= '9'
    ensures Plain(text)
  {
  }

  lemma OptionIsPlain()
    ensures Plain("--artest-bootstrap")
  {
  }

  lemma PlainOption(handle: string)
    requires handle != "" && forall c :: c in handle ==> '0' <= c <= '9'
    ensures Arguments(" --artest-bootstrap " + handle) == ["--artest-bootstrap", handle]
  {
    hide Argument, Plain;
    DigitsArePlain(handle);
    assert Plain("--artest-bootstrap") by { OptionIsPlain(); }
    var option := "--artest-bootstrap";
    var after := " " + handle;
    assert (" --artest-bootstrap " + handle)[1..] == option + after;
    PlainReadsBack(option, after);
    assert (option + after)[0] == '-';
    assert after[1..] == handle + "";
    PlainReadsBack(handle, "");
    assert Arguments(handle) == [handle] + Arguments("");
    assert Arguments(after) == Arguments(handle);
  }
}
