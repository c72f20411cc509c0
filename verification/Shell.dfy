/** The normalizer's scanners as they run: loops over the command text, each proved to compute
    the function of the same scanner in `ShellSyntax`. */
module Shell {
  import opened Wrappers
  import opened ShellSyntax
  import opened Sequences

  /** `assertSupportedShellSyntax`: false where the source throws. */
  method AssertSupportedShellSyntax(command: string) returns (ok: bool)
    ensures ok == Supported(PLAIN, command)
  {
    var quote, escaped := Bare, false;
    var index := 0;
    while index < |command|
      invariant 0 <= index <= |command|
      invariant Supported(PLAIN, command) == Supported(Mode(quote, escaped), command[index..])
      invariant quote == Single ==> !escaped
    {
      var c := command[index];
      var rest := command[index..];
      assert rest[1..] == command[index + 1..];
      if escaped {
        if c == '\n' || c == '\r' { return false; }
        escaped := false;
      } else if c == '\\' && quote != Single {
        escaped := true;
      } else if quote == Single {
        if c == '\'' { quote := Bare; }
      } else if quote == Double {
        if c == '"' {
          quote := Bare;
        } else if (c == '$' && index + 1 < |command| && command[index + 1] == '(') || c == '`' {
          return false;
        }
      } else if c == '\'' || c == '"' {
        quote := if c == '\'' then Single else Double;
      } else if c == '\n' || c == '\r' {
        return false;
      } else if c == '&' {
        if index + 1 < |command| && command[index + 1] == '&' {
          assert rest[2..] == command[index + 2..];
          index := index + 1;
        } else {
          return false;
        }
      } else if c == '>' || c == '<' {
        return false;
      } else if (c == '$' && index + 1 < |command| && command[index + 1] == '(') || c == '`' {
        return false;
      }
      index := index + 1;
    }
    return true;
  }

  /** `splitShellComposition`. */
  method SplitShellComposition(command: string) returns (segments: seq<Segment>)
    ensures segments == Segments(command)
  {
    segments := [];
    var buffer, quote, escaped, precededBy := "", Bare, false, Start;
    var index := 0;
    ghost var rest := command;
    while index < |command|
      invariant 0 <= index <= |command| && rest == command[index..]
      invariant Splits(command, segments, Mode(quote, escaped), rest, precededBy, buffer)
    {
      var c := command[index];
      if escaped || quote != Bare || c == '\\' || c == '\'' || c == '"' {
        Collect(command, segments, Mode(quote, escaped), rest, precededBy, buffer);
        quote, escaped := Advance(quote, escaped, c);
        buffer, rest := buffer + [c], rest[1..];
      } else {
        var separator := SeparatorAt(command, index);
        if separator != Start {
          Cut(command, segments, rest, precededBy, buffer);
          segments := Flushed(segments, precededBy, buffer);
          precededBy, buffer := separator, "";
          rest := rest[|SepText(separator)|..];
          index := index + |SepText(separator)| - 1;
        } else {
          Collect(command, segments, PLAIN, rest, precededBy, buffer);
          buffer, rest := buffer + [c], rest[1..];
        }
      }
      index := index + 1;
    }
    segments := Flushed(segments, precededBy, buffer);
  }

  /** The finished segments followed by those still to come are the segments of the command. */
  ghost predicate Splits(command: string, segments: seq<Segment>, m: Mode, rest: string, sep: Separator, raw: string) {
    Segments(command) == segments + Kept(Pieces(m, rest, sep, raw))
  }

  lemma {:induction false} Collect(command: string, segments: seq<Segment>, m: Mode, s: string, sep: Separator, raw: string)
    requires s != [] && Splits(command, segments, m, s, sep, raw)
    requires m != PLAIN || SepAt(s) == Start || s[0] in {'\\', '\'', '"'}
    ensures Splits(command, segments, Next(m, s[0]), s[1..], sep, raw + [s[0]])
  {
    assert s[0] in {'\\', '\'', '"'} ==> SepAt(s) == Start;
  }

  lemma {:induction false} Cut(command: string, segments: seq<Segment>, s: string, sep: Separator, raw: string)
    requires s != [] && SepAt(s) != Start && Splits(command, segments, PLAIN, s, sep, raw)
    ensures Splits(command, Flushed(segments, sep, raw), PLAIN, s[|SepText(SepAt(s))|..], SepAt(s), "")
  {
    var later := Pieces(PLAIN, s[|SepText(SepAt(s))|..], SepAt(s), "");
    KeptCons(Piece(sep, raw), later);
    Associates(segments, Kept([Piece(sep, raw)]), Kept(later));
  }

  /** `flush`: keep the trimmed buffer unless it is empty. */
  function Flushed(segments: seq<Segment>, precededBy: Separator, buffer: string): seq<Segment> {
    segments + Kept([Piece(precededBy, buffer)])
  }

  /** The quote and escape bookkeeping of one character. */
  method Advance(quote: Quote, escaped: bool, c: char) returns (quote': Quote, escaped': bool)
    ensures Mode(quote', escaped') == Next(Mode(quote, escaped), c)
  {
    quote', escaped' := quote, false;
    if escaped {
    } else if c == '\\' && quote != Single {
      escaped' := true;
    } else if quote != Bare {
      if c == (if quote == Single then '\'' else '"') { quote' := Bare; }
    } else if c == '\'' || c == '"' {
      quote' := if c == '\'' then Single else Double;
    }
  }

  /** The separator at an unquoted position: the two-character slice decides before the character. */
  method SeparatorAt(command: string, index: nat) returns (sep: Separator)
    requires index < |command|
    ensures sep == SepAt(command[index..])
  {
    var pair := if index + 2 <= |command| then command[index..index + 2] else command[index..];
    ghost var rest := command[index..];
    assert pair == if |rest| >= 2 then rest[..2] else rest;
    assert "&&" <= rest <==> pair == "&&";
    assert "||" <= rest <==> pair == "||";
    if pair == "&&" { return AndAnd; }
    if pair == "||" { return OrOr; }
    match command[index]
    case ';' => sep := Semi;
    case '|' => sep := Pipe;
    case '(' => sep := Open;
    case ')' => sep := Close;
    case _ => sep := Start;
  }

  /** `tokenize`. */
  method Tokenize(segment: string) returns (tokens: seq<Token>)
    ensures tokens == Tokens(segment)
  {
    tokens := [];
    var buffer, quote, escaped, pathnameExpansion := "", Bare, false, false;
    for index := 0 to |segment|
      invariant WordRun(NO_WORDS, segment)
             == WordRun(Words(tokens, buffer, Mode(quote, escaped), pathnameExpansion), segment[index..])
    {
      var c := segment[index];
      assert segment[index..][1..] == segment[index + 1..];
      if escaped {
        buffer, escaped := buffer + [c], false;
      } else if c == '\\' && quote != Single {
        escaped := true;
      } else if quote != Bare {
        if c == (if quote == Single then '\'' else '"') {
          quote := Bare;
        } else {
          if quote == Double && c == '$' { pathnameExpansion := true; }
          buffer := buffer + [c];
        }
      } else if c == '\'' || c == '"' {
        quote := if c == '\'' then Single else Double;
      } else if IsSpace(c) {
        if buffer != "" { tokens := tokens + [Token(buffer, pathnameExpansion)]; }
        buffer, pathnameExpansion := "", false;
      } else {
        if (c == '~' && buffer == "") || c == '*' || c == '?' || c == '[' || c == '$' || c == '{' {
          pathnameExpansion := true;
        }
        buffer := buffer + [c];
      }
    }
    if buffer != "" { tokens := tokens + [Token(buffer, pathnameExpansion)]; }
  }

  /** The option loop of `unwrapCommand`: past options, and past `--` if it ends them. */
  method SkipFrom(words: seq<string>, start: nat, assignments: bool) returns (offset: nat)
    requires start <= |words|
    ensures start <= offset <= |words|
    ensures words[offset..] == SkipOptions(words[start..], assignments)
  {
    offset := start;
    while offset < |words|
      invariant start <= offset <= |words|
      invariant SkipOptions(words[start..], assignments) == SkipOptions(words[offset..], assignments)
    {
      var token := words[offset];
      assert words[offset..][1..] == words[offset + 1..];
      if token == "--" {
        return offset + 1;
      }
      if "-" <= token || (assignments && '=' in token) { offset := offset + 1; } else { return offset; }
    }
  }

  /** `unwrapCommand`: the empty list stands for the source's null. */
  method UnwrapCommand(words: seq<string>) returns (argv: seq<string>)
    ensures argv == Unwrapped(words)
  {
    var offset := 0;
    assert words[0..] == words;
    if offset < |words| && words[offset] == "sudo" {
      offset := SkipFrom(words, 1, false);
    }
    ghost var inner := words[offset..];
    if offset < |words| && words[offset] == "env" {
      assert words[offset + 1..] == inner[1..];
      offset := SkipFrom(words, offset + 1, true);
    }
    argv := words[offset..];
  }

  /** `normalizeShellCommand`: None where the source throws. */
  method NormalizeShellCommand(command: string) returns (operations: Option<seq<Operation>>)
    ensures operations == Normalized(command)
  {
    var ok := AssertSupportedShellSyntax(command);
    if !ok { return None; }
    var segments := SplitShellComposition(command);
    var collected := [];
    assert segments[0..] == segments;
    PrependNothing(Operations(segments));
    for i := 0 to |segments|
      invariant Operations(segments) == Prepend(collected, Operations(segments[i..]))
    {
      assert segments[i..][0] == segments[i] && segments[i..][1..] == segments[i + 1..];
      var tokens := Tokenize(segments[i].text);
      if Dynamic(tokens) { return None; }
      var argv := UnwrapCommand(Values(tokens));
      PrependTwice(collected, Reported(argv, segments[i]), Operations(segments[i + 1..]));
      collected := collected + Reported(argv, segments[i]);
    }
    assert collected + [] == collected;
    operations := Some(collected);
  }
}
