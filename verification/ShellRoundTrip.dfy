/** Parsing inverts printing, however the words are quoted and spaced: commands joined by the supported
    separators come back as exactly the argv lists and separators that were printed, without the
    wrappers `sudo` and `env`. */
module ShellRoundTrip {
  import opened Wrappers
  import opened ShellSyntax
  import opened ShellTheorems
  import opened Sequences

  /** A stretch of a word, as it is written. */
  datatype Chunk = Literal(s: string) | InSingle(s: string) | InDouble(s: string) | Backslashed(c: char)

  type Word = seq<Chunk>

  /** A word with the white space before it. */
  datatype Spaced = Spaced(gap: string, word: Word)

  /** A command to print: the separator before it, its words, and the white space around them. */
  datatype Command = Command(sep: Separator, lead: string, words: seq<Spaced>, tail: string)

  /** A character that means itself outside quotes. */
  predicate Ordinary(c: char) {
    !IsSpace(c) && c !in {'\'', '"', '\\', ';', '|', '(', ')', '&', '<', '>', '`', '$', '*', '?', '[', '{', '~'}
  }

  predicate Writable(x: Chunk) {
    match x
    case Literal(s) => s != "" && forall c :: c in s ==> Ordinary(c)
    case InSingle(s) => '\'' !in s
    case InDouble(_) => true
    case Backslashed(c) => c != '\n' && c != '\r'
  }

  /** Inside double quotes a backslash goes before what would not stand for itself. */
  function Guarded(s: string): string {
    if s == "" then "" else (if s[0] in {'"', '\\', '$', '`'} then ['\\', s[0]] else [s[0]]) + Guarded(s[1..])
  }

  function Text(x: Chunk): string {
    match x
    case Literal(s) => s
    case InSingle(s) => "'" + (s + "'")
    case InDouble(s) => "\"" + (Guarded(s) + "\"")
    case Backslashed(c) => ['\\', c]
  }

  function Meaning(x: Chunk): string {
    match x
    case Literal(s) => s
    case InSingle(s) => s
    case InDouble(s) => s
    case Backslashed(c) => [c]
  }

  function WordText(w: Word): string {
    if w == [] then "" else Text(w[0]) + WordText(w[1..])
  }

  function WordMeaning(w: Word): string {
    if w == [] then "" else Meaning(w[0]) + WordMeaning(w[1..])
  }

  predicate IsWord(w: Word) {
    w != [] && forall x :: x in w ==> Writable(x)
  }

  /** White space that does not end the command. */
  predicate Blank(s: string) {
    forall c :: c in s ==> IsSpace(c) && c != '\n' && c != '\r'
  }

  /** Every word after the first one with its gap. */
  function Rest(ws: seq<Spaced>): string {
    if ws == [] then "" else ws[0].gap + (WordText(ws[0].word) + Rest(ws[1..]))
  }

  function Body(ws: seq<Spaced>): string {
    if ws == [] then "" else WordText(ws[0].word) + Rest(ws[1..])
  }

  function Meanings(ws: seq<Spaced>): seq<string> {
    if ws == [] then [] else [WordMeaning(ws[0].word)] + Meanings(ws[1..])
  }

  /** The text ends with a space that a backslash protects: trimming would take it away. */
  predicate EndsEscaped(ws: seq<Spaced>) {
    ws != [] && ws[|ws| - 1].word != [] &&
    var w := ws[|ws| - 1].word; w[|w| - 1].Backslashed? && IsSpace(w[|w| - 1].c)
  }

  predicate IsCommand(c: Command) {
    && (forall k :: 0 <= k < |c.words| ==> IsWord(c.words[k].word) && Blank(c.words[k].gap))
    && (forall k :: 1 <= k < |c.words| ==> c.words[k].gap != "")
    && Blank(c.lead) && Blank(c.tail) && !EndsEscaped(c.words)
    && (c.words == [] && c.sep != Start ==> c.lead != "")
  }

  function Around(c: Command): string {
    c.lead + (Body(c.words) + c.tail)
  }

  function PrintOne(c: Command): string {
    SepText(c.sep) + Around(c)
  }

  function Print(cmds: seq<Command>): string {
    if cmds == [] then "" else PrintOne(cmds[0]) + Print(cmds[1..])
  }

  // ---- Text that is neither refused nor cut ----

  /** A character that scanners 1 and 2 pass over in this state. */
  predicate Calm(m: Mode, c: char) {
    if m.escaped then c != '\n' && c != '\r'
    else match m.quote
         case Single => true
         case Double => c != '`' && c != '$'
         case Bare => c !in {';', '|', '(', ')', '&', '<', '>', '\n', '\r', '`', '$'}
  }

  predicate AllCalm(m: Mode, s: string)
    decreases |s|
  {
    s == "" || (Calm(m, s[0]) && AllCalm(Next(m, s[0]), s[1..]))
  }

  lemma {:induction false} CalmPasses(m: Mode, s: string, rest: string, sep: Separator, raw: string)
    requires AllCalm(m, s)
    ensures Supported(m, s + rest) == Supported(After(m, s), rest)
    ensures Pieces(m, s + rest, sep, raw) == Pieces(After(m, s), rest, sep, raw + s)
    decreases |s|
  {
    if s == "" {
      assert s + rest == rest && raw + "" == raw;
    } else {
      var t := s + rest;
      assert t[0] == s[0] && t[1..] == s[1..] + rest;
      CalmPasses(Next(m, s[0]), s[1..], rest, sep, raw + [s[0]]);
      assert (raw + [s[0]]) + s[1..] == raw + s;
      hide After, AllCalm;
      assert m == PLAIN ==> SepAt(t) == Start;
    }
  }

  lemma {:induction false} CalmConcat(m: Mode, a: string, b: string)
    requires AllCalm(m, a) && AllCalm(After(m, a), b)
    ensures AllCalm(m, a + b) && After(m, a + b) == After(After(m, a), b)
    decreases |a|
  {
    AfterConcat(m, a, b);
    if a == "" {
      assert a + b == b;
    } else {
      assert (a + b)[0] == a[0] && (a + b)[1..] == a[1..] + b;
      CalmConcat(Next(m, a[0]), a[1..], b);
    }
  }

  // ---- One chunk ----

  const SINGLE := Mode(Single, false)
  const DOUBLE := Mode(Double, false)

  /** Passed over, back outside quotes, and added to the word. */
  ghost predicate Adds(text: string, meaning: string) {
    && AllCalm(PLAIN, text) && After(PLAIN, text) == PLAIN
    && forall st: Words :: st.mode == PLAIN ==> WordRun(st, text) == st.(buffer := st.buffer + meaning)
  }

  lemma {:induction false} AddsBoth(a: string, v: string, b: string, w: string)
    requires Adds(a, v) && Adds(b, w)
    ensures Adds(a + b, v + w)
  {
    CalmConcat(PLAIN, a, b);
    forall st: Words | st.mode == PLAIN ensures WordRun(st, a + b) == st.(buffer := st.buffer + (v + w)) {
      AddsInTurn(a, v, b, w, st);
    }
    hide AllCalm, After, WordRun;
  }

  lemma {:induction false} AddsInTurn(a: string, v: string, b: string, w: string, st: Words)
    requires Adds(a, v) && Adds(b, w) && st.mode == PLAIN
    ensures WordRun(st, a + b) == st.(buffer := st.buffer + (v + w))
  {
    hide *;
    var mid := st.(buffer := st.buffer + v);
    AddsTo(a, v, st);
    AddsTo(b, w, mid);
    RunConcat(st, a, b);
    Associates(st.buffer, v, w);
  }

  lemma {:induction false} AddsTo(text: string, meaning: string, st: Words)
    requires Adds(text, meaning) && st.mode == PLAIN
    ensures WordRun(st, text) == st.(buffer := st.buffer + meaning)
  {
    hide AllCalm, After, WordRun;
  }

  lemma {:induction false} AddsNothing()
    ensures Adds("", "")
  {
    forall st: Words ensures st.buffer + "" == st.buffer { }
  }

  lemma {:induction false} OneLiteral(c: char)
    requires Ordinary(c)
    ensures Adds([c], [c])
  {
    assert [c][1..] == "" && Next(PLAIN, c) == PLAIN;
    forall st: Words | st.mode == PLAIN ensures WordRun(st, [c]) == st.(buffer := st.buffer + [c]) {
      assert WordStep(st, c) == st.(buffer := st.buffer + [c]);
    }
  }

  lemma {:induction false} LiteralAdds(s: string)
    requires forall c :: c in s ==> Ordinary(c)
    ensures Adds(s, s)
    decreases |s|
  {
    if s == "" {
      AddsNothing();
    } else {
      var one := [s[0]];
      assert s[0] in s;
      OneLiteral(s[0]);
      LiteralAdds(s[1..]);
      AddsBoth(one, one, s[1..], s[1..]);
      assert one + s[1..] == s;
    }
  }

  /** What is literal between single quotes, up to the quote that closes them. */
  lemma {:induction false} SingleRun(s: string, st: Words)
    requires '\'' !in s && st.mode == SINGLE
    ensures AllCalm(SINGLE, s + "'") && After(SINGLE, s + "'") == PLAIN
    ensures WordRun(st, s + "'") == st.(buffer := st.buffer + s, mode := PLAIN)
    decreases |s|
  {
    var t := s + "'";
    if s == "" {
      assert t[0] == '\'' && t[1..] == "";
      assert st.buffer + "" == st.buffer;
    } else {
      assert t[0] == s[0] && t[1..] == s[1..] + "'";
      SingleRun(s[1..], st.(buffer := st.buffer + [s[0]]));
      assert (st.buffer + [s[0]]) + s[1..] == st.buffer + s;
      assert WordStep(st, s[0]) == st.(buffer := st.buffer + [s[0]]);
    }
  }

  lemma {:induction false} GuardedRun(s: string, st: Words)
    requires st.mode == DOUBLE
    ensures AllCalm(DOUBLE, Guarded(s) + "\"") && After(DOUBLE, Guarded(s) + "\"") == PLAIN
    ensures WordRun(st, Guarded(s) + "\"") == st.(buffer := st.buffer + s, mode := PLAIN)
    decreases |s|
  {
    var t := Guarded(s) + "\"";
    if s == "" {
      assert t[0] == '"' && t[1..] == "";
      assert st.buffer + "" == st.buffer;
    } else {
      var later := Guarded(s[1..]) + "\"";
      var next := st.(buffer := st.buffer + [s[0]]);
      GuardedRun(s[1..], next);
      assert (st.buffer + [s[0]]) + s[1..] == st.buffer + s;
      if s[0] in {'"', '\\', '$', '`'} {
        assert t == ['\\', s[0]] + later;
        assert t[0] == '\\' && t[1..] == [s[0]] + later && t[1..][0] == s[0] && t[1..][1..] == later;
        var escaped := st.(mode := Mode(Double, true));
        assert WordStep(st, '\\') == escaped && WordStep(escaped, s[0]) == next;
        assert WordRun(st, t) == WordRun(escaped, t[1..]) == WordRun(next, later);
        assert Next(DOUBLE, '\\') == escaped.mode && Next(escaped.mode, s[0]) == DOUBLE;
        assert After(DOUBLE, t) == After(escaped.mode, t[1..]) == After(DOUBLE, later);
        assert AllCalm(escaped.mode, t[1..]);
      } else {
        assert t == [s[0]] + later && t[1..] == later;
        assert WordStep(st, s[0]) == next;
      }
    }
  }

  lemma {:induction false} ChunkAdds(x: Chunk)
    requires Writable(x)
    ensures Adds(Text(x), Meaning(x))
  {
    match x
    case Literal(s) => LiteralAdds(s);
    case InSingle(s) => SingleAdds(s);
    case InDouble(s) => DoubleAdds(s);
    case Backslashed(c) => BackslashAdds(c);
  }

  lemma {:induction false} SingleAdds(s: string)
    requires '\'' !in s
    ensures Adds("'" + (s + "'"), s)
  {
    var t := "'" + (s + "'");
    assert t[0] == '\'' && t[1..] == s + "'";
    SingleRun(s, NO_WORDS.(mode := SINGLE));
    forall st: Words | st.mode == PLAIN ensures WordRun(st, t) == st.(buffer := st.buffer + s) {
      SingleRun(s, st.(mode := SINGLE));
      assert WordStep(st, '\'') == st.(mode := SINGLE);
    }
  }

  lemma {:induction false} DoubleAdds(s: string)
    ensures Adds("\"" + (Guarded(s) + "\""), s)
  {
    hide Guarded;
    var t := "\"" + (Guarded(s) + "\"");
    assert t[0] == '"' && t[1..] == Guarded(s) + "\"";
    GuardedRun(s, NO_WORDS.(mode := DOUBLE));
    forall st: Words | st.mode == PLAIN ensures WordRun(st, t) == st.(buffer := st.buffer + s) {
      GuardedRun(s, st.(mode := DOUBLE));
      assert WordStep(st, '"') == st.(mode := DOUBLE);
    }
  }

  lemma {:induction false} OneCalm(m: Mode, c: char)
    requires Calm(m, c)
    ensures AllCalm(m, [c]) && After(m, [c]) == Next(m, c)
  {
    assert [c][1..] == "";
    assert AllCalm(Next(m, c), "") && After(Next(m, c), "") == Next(m, c);
  }

  lemma {:induction false} OneStep(st: Words, c: char)
    ensures WordRun(st, [c]) == WordStep(st, c)
  {
    assert [c][1..] == "";
    assert WordRun(WordStep(st, c), "") == WordStep(st, c);
  }

  lemma {:induction false} BackslashAdds(c: char)
    requires c != '\n' && c != '\r'
    ensures Adds(['\\', c], [c])
  {
    var t := ['\\', c];
    assert t[1..] == [c] && [c][1..] == "";
    assert Next(PLAIN, '\\') == Mode(Bare, true) && Next(Mode(Bare, true), c) == PLAIN;
    OneCalm(Mode(Bare, true), c);
    OneCalm(PLAIN, '\\');
    CalmConcat(PLAIN, "\\", [c]);
    assert t == "\\" + [c];
    forall st: Words | st.mode == PLAIN ensures WordRun(st, t) == st.(buffer := st.buffer + [c]) {
      var escaped := st.(mode := Mode(Bare, true));
      assert WordStep(st, '\\') == escaped;
      assert WordStep(escaped, c) == st.(buffer := st.buffer + [c]);
      OneStep(escaped, c);
    }
  }

  lemma {:induction false} WordAdds(w: Word)
    requires forall x :: x in w ==> Writable(x)
    ensures Adds(WordText(w), WordMeaning(w))
  {
    hide Adds, Writable, Text, Meaning;
    if w == [] {
      AddsNothing();
    } else {
      ChunkAdds(w[0]);
      WordAdds(w[1..]);
      AddsBoth(Text(w[0]), Meaning(w[0]), WordText(w[1..]), WordMeaning(w[1..]));
    }
  }

  // ---- One command ----

  lemma {:induction false} BlankPasses(s: string)
    requires Blank(s)
    ensures AllCalm(PLAIN, s) && After(PLAIN, s) == PLAIN
    decreases |s|
  {
    if s != "" {
      assert s[0] in s && Next(PLAIN, s[0]) == PLAIN;
      BlankPasses(s[1..]);
    }
  }

  predicate WordsAndGaps(ws: seq<Spaced>) {
    forall k :: 0 <= k < |ws| ==> IsWord(ws[k].word) && Blank(ws[k].gap) && ws[k].gap != ""
  }

  lemma {:induction false} RestPasses(ws: seq<Spaced>)
    requires WordsAndGaps(ws)
    ensures AllCalm(PLAIN, Rest(ws)) && After(PLAIN, Rest(ws)) == PLAIN
  {
    hide AllCalm, IsWord, Blank;
    if ws == [] {
      BlankPasses("");
    } else {
      assert IsWord(ws[0].word);
      RestPasses(ws[1..]);
      BlankPasses(ws[0].gap);
      WordPasses(ws[0].word);
      CalmConcat(PLAIN, WordText(ws[0].word), Rest(ws[1..]));
      CalmConcat(PLAIN, ws[0].gap, WordText(ws[0].word) + Rest(ws[1..]));
    }
  }

  lemma {:induction false} WordPasses(w: Word)
    requires IsWord(w)
    ensures AllCalm(PLAIN, WordText(w)) && After(PLAIN, WordText(w)) == PLAIN
  {
    WordAdds(w);
  }

  lemma {:induction false} BodyPasses(c: Command)
    requires IsCommand(c)
    ensures var t := c.lead + (Body(c.words) + c.tail); AllCalm(PLAIN, t) && After(PLAIN, t) == PLAIN
  {
    hide AllCalm, IsWord, Blank, EndsEscaped;
    BlankPasses(c.lead);
    BlankPasses(c.tail);
    if c.words == [] {
      assert "" + c.tail == c.tail;
    } else {
      WordPasses(c.words[0].word);
      RestPasses(c.words[1..]);
      CalmConcat(PLAIN, WordText(c.words[0].word), Rest(c.words[1..]));
      CalmConcat(PLAIN, Body(c.words), c.tail);
    }
    CalmConcat(PLAIN, c.lead, Body(c.words) + c.tail);
  }

  // ---- Its words ----

  /** The non-empty words, unmarked. */
  function Plainly(words: seq<string>): seq<Token> {
    if words == [] then [] else (if words[0] == "" then [] else [Token(words[0], false)]) + Plainly(words[1..])
  }

  function NonEmpty(words: seq<string>): seq<string> {
    if words == [] then [] else (if words[0] == "" then [] else [words[0]]) + NonEmpty(words[1..])
  }

  lemma {:induction false} GapEndsWord(w: Words, gap: string)
    requires w.mode == PLAIN && gap != "" && Blank(gap)
    ensures WordRun(w, gap) == Flush(w)
  {
    forall i | 0 <= i < |gap| ensures IsSpace(gap[i]) { assert gap[i] in gap; }
    SpacesEndWord(w, gap);
  }

  lemma {:induction false} RestRuns(ws: seq<Spaced>, st: Words)
    requires WordsAndGaps(ws) && st.mode == PLAIN && !st.expansion
    ensures Flush(WordRun(st, Rest(ws))).tokens == Flush(st).tokens + Plainly(Meanings(ws))
    decreases |ws|
  {
    hide IsWord, Blank, IsSpace;
    if ws == [] {
      assert Flush(st).tokens + [] == Flush(st).tokens;
    } else {
      var (gap, text, value, later) := (ws[0].gap, WordText(ws[0].word), WordMeaning(ws[0].word), Rest(ws[1..]));
      var begun := Flush(st).(buffer := value);
      GapEndsWord(st, gap);
      WordRuns(ws[0].word, Flush(st));
      RunConcat(st, gap, text + later);
      RunConcat(Flush(st), text, later);
      RestRuns(ws[1..], begun);
      var values := Meanings(ws);
      assert values[0] == value && values[1..] == Meanings(ws[1..]);
      FlushOne(Flush(st), value);
      Associates(Flush(st).tokens, if value == "" then [] else [Token(value, false)], Plainly(Meanings(ws[1..])));
    }
  }

  lemma {:induction false} FlushOne(st: Words, value: string)
    requires !st.expansion
    ensures Flush(st.(buffer := value)).tokens == st.tokens + if value == "" then [] else [Token(value, false)]
  {
    if value == "" { assert st.tokens + [] == st.tokens; }
  }

  lemma {:induction false} WordRuns(w: Word, st: Words)
    requires IsWord(w) && st.mode == PLAIN && st.buffer == ""
    ensures WordRun(st, WordText(w)) == st.(buffer := WordMeaning(w))
  {
    hide AllCalm, WordText, WordMeaning, Writable;
    WordAdds(w);
    assert "" + WordMeaning(w) == WordMeaning(w);
  }

  lemma {:induction false} BodyTokens(ws: seq<Spaced>)
    requires forall k :: 0 <= k < |ws| ==> IsWord(ws[k].word) && Blank(ws[k].gap)
    requires forall k :: 1 <= k < |ws| ==> ws[k].gap != ""
    ensures Tokens(Body(ws)) == Plainly(Meanings(ws))
  {
    hide IsWord, Blank;
    if ws != [] {
      var (text, value) := (WordText(ws[0].word), WordMeaning(ws[0].word));
      WordRuns(ws[0].word, NO_WORDS);
      RunConcat(NO_WORDS, text, Rest(ws[1..]));
      RestRuns(ws[1..], NO_WORDS.(buffer := value));
      FlushOne(NO_WORDS, value);
      var values := Meanings(ws);
      assert values[0] == value && values[1..] == Meanings(ws[1..]);
      assert [] + (if value == "" then [] else [Token(value, false)]) == if value == "" then [] else [Token(value, false)];
    }
  }

  lemma {:induction false} PlainlyValues(words: seq<string>)
    ensures Values(Plainly(words)) == NonEmpty(words)
    ensures !Dynamic(Plainly(words))
  {
    if words != [] {
      PlainlyValues(words[1..]);
      var rest := Plainly(words[1..]);
      if words[0] != "" {
        assert ([Token(words[0], false)] + rest)[1..] == rest;
        forall i | 0 <= i < |Plainly(words)| ensures !Plainly(words)[i].expansion {
          if i > 0 { assert Plainly(words)[i] == rest[i - 1]; }
        }
      } else {
        assert [] + rest == rest;
      }
    }
  }

  // ---- Its trimmed text ----

  lemma {:induction false} TrimBlank(s: string)
    requires Blank(s)
    ensures TrimStart(s) == "" && Trim(s) == ""
  {
    if s != "" {
      assert s[0] in s;
      TrimBlank(s[1..]);
    }
  }

  lemma {:induction false} TrimSolid(lead: string, t: string, tail: string)
    requires Blank(lead) && Blank(tail) && t != "" && !IsSpace(t[0]) && !IsSpace(t[|t| - 1])
    ensures Trim(lead + (t + tail)) == t
  {
    TrimLead(lead, t + tail);
    TrimTail(t, tail);
  }

  lemma {:induction false} TrimLead(lead: string, s: string)
    requires Blank(lead) && s != "" && !IsSpace(s[0])
    ensures TrimStart(lead + s) == s
  {
    if lead == "" {
      assert lead + s == s;
    } else {
      assert lead[0] in lead && (lead + s)[1..] == lead[1..] + s;
      TrimLead(lead[1..], s);
    }
  }

  lemma {:induction false} TrimTail(t: string, tail: string)
    requires Blank(tail) && t != "" && !IsSpace(t[|t| - 1])
    ensures TrimEnd(t + tail) == t
    decreases |tail|
  {
    var s := t + tail;
    if tail == "" {
      assert s == t;
    } else {
      assert s[|s| - 1] == tail[|tail| - 1] && tail[|tail| - 1] in tail;
      var shorter := tail[..|tail| - 1];
      assert s[..|s| - 1] == t + shorter;
      forall c | c in shorter ensures c in tail { }
      TrimTail(t, shorter);
    }
  }

  lemma {:induction false} ChunkEdges(x: Chunk)
    requires Writable(x)
    ensures Text(x) != "" && !IsSpace(Text(x)[0])
    ensures (x.Backslashed? ==> !IsSpace(x.c)) ==> !IsSpace(Text(x)[|Text(x)| - 1])
  {
    if x.Literal? {
      assert x.s[0] in x.s && x.s[|x.s| - 1] in x.s;
    }
  }

  lemma {:induction false} WordEdges(w: Word)
    requires IsWord(w)
    ensures WordText(w) != "" && !IsSpace(WordText(w)[0])
    ensures (w[|w| - 1].Backslashed? ==> !IsSpace(w[|w| - 1].c)) ==> !IsSpace(WordText(w)[|WordText(w)| - 1])
  {
    hide IsSpace, Text, Writable;
    assert w[0] in w;
    ChunkEdges(w[0]);
    if |w| > 1 {
      WordEdges(w[1..]);
      assert WordText(w)[|WordText(w)| - 1] == WordText(w[1..])[|WordText(w[1..])| - 1];
    } else {
      assert w[1..] == [] && WordText(w) == Text(w[0]) + "";
    }
  }

  lemma {:induction false} RestEnds(ws: seq<Spaced>)
    requires WordsAndGaps(ws) && ws != [] && !EndsEscaped(ws)
    ensures Rest(ws) != "" && !IsSpace(Rest(ws)[|Rest(ws)| - 1])
    decreases |ws|
  {
    hide IsSpace, Blank, WordText;
    WordEdges(ws[0].word);
    var text := WordText(ws[0].word);
    if |ws| > 1 {
      RestEnds(ws[1..]);
      assert Rest(ws)[|Rest(ws)| - 1] == Rest(ws[1..])[|Rest(ws[1..])| - 1];
    } else {
      assert ws[1..] == [] && Rest(ws) == ws[0].gap + (text + "");
      assert Rest(ws)[|Rest(ws)| - 1] == text[|text| - 1];
    }
  }

  lemma {:induction false} BodyEdges(c: Command)
    requires IsCommand(c) && c.words != []
    ensures var t := Body(c.words); t != "" && !IsSpace(t[0]) && !IsSpace(t[|t| - 1])
  {
    hide IsSpace, Blank, WordText;
    var (ws, t) := (c.words, Body(c.words));
    var text := WordText(ws[0].word);
    WordEdges(ws[0].word);
    if |ws| > 1 {
      var later := ws[1..];
      assert later[|later| - 1] == ws[|ws| - 1];
      RestEnds(later);
      assert t[|t| - 1] == Rest(later)[|Rest(later)| - 1];
    } else {
      assert ws[1..] == [] && t == text + "";
    }
  }

  lemma {:induction false} TrimsToBody(c: Command)
    requires IsCommand(c)
    ensures Trim(c.lead + (Body(c.words) + c.tail)) == Body(c.words)
    ensures Body(c.words) == "" <==> c.words == []
  {
    hide IsSpace, IsWord, EndsEscaped, Trim;
    if c.words == [] {
      assert c.lead + ("" + c.tail) == c.lead + c.tail;
      TrimBlank(c.lead + c.tail);
    } else {
      BodyEdges(c);
      TrimSolid(c.lead, Body(c.words), c.tail);
    }
  }

  // ---- A list of commands ----

  /** What the normalizer reports: per command, the argv of its non-empty words. */
  function Expected(cmds: seq<Command>): seq<Operation> {
    if cmds == [] then []
    else Reported(Unwrapped(NonEmpty(Meanings(cmds[0].words))), Segment(Body(cmds[0].words), cmds[0].sep)) + Expected(cmds[1..])
  }

  predicate Printable(cmds: seq<Command>) {
    && (forall k :: 0 <= k < |cmds| ==> IsCommand(cmds[k]))
    && (forall k :: 1 <= k < |cmds| ==> cmds[k].sep != Start)
  }

  lemma {:induction false} CommandReports(c: Command, rest: seq<Segment>)
    requires IsCommand(c)
    ensures var segs := Kept([Piece(c.sep, c.lead + (Body(c.words) + c.tail))]) + rest;
            var more := Operations(rest);
            Operations(segs) == if more == None then None
                                else Some(Reported(Unwrapped(NonEmpty(Meanings(c.words))), Segment(Body(c.words), c.sep)) + more.value)
  {
    TrimsToBody(c);
    BodyTokens(c.words);
    PlainlyValues(Meanings(c.words));
    hide IsCommand, Unwrapped, Tokens, Trim, Body;
    var p := Piece(c.sep, c.lead + (Body(c.words) + c.tail));
    assert [p][1..] == [];
    if c.words == [] {
      assert Kept([p]) == [] + [] && Kept([p]) + rest == rest;
      NothingToRun();
      if Operations(rest).Some? { assert [] + Operations(rest).value == Operations(rest).value; }
    } else {
      var segment := Segment(Body(c.words), c.sep);
      assert Kept([p]) == [segment] + [];
      assert (Kept([p]) + rest)[0] == segment && (Kept([p]) + rest)[1..] == rest;
    }
  }

  lemma {:induction false} NothingToRun()
    ensures Unwrapped(NonEmpty(Meanings([]))) == []
  {
  }

  /** The character after a separator does not make it a longer one. */
  lemma {:induction false} SeparatorFound(sep: Separator, rest: string)
    requires sep != Start && rest != "" && rest[0] != '|'
    ensures SepAt(SepText(sep) + rest) == sep
    ensures Supported(PLAIN, SepText(sep) + rest) == Supported(PLAIN, rest)
  {
    var s := SepText(sep) + rest;
    assert SepText(sep) <= s;
    assert |SepText(sep)| == 1 ==> s[0] == SepText(sep)[0] && s[1] == rest[0] && s[1..] == rest;
    assert |SepText(sep)| == 2 ==> s[0] == SepText(sep)[0] && s[1] == SepText(sep)[1] && s[2..] == rest;
    assert "&&" <= s ==> s[0] == '&' && s[1] == '&';
    assert "||" <= s ==> s[0] == '|' && s[1] == '|';
    if sep == OrOr {
      assert s[1..][0] == '|' && s[1..][1..] == rest;
      assert Supported(PLAIN, s) == Supported(PLAIN, s[1..]) == Supported(PLAIN, rest);
    }
  }

  /** What follows a separator begins with white space, a quote, a backslash or an ordinary character. */
  lemma {:induction false} NoBarFirst(c: Command)
    requires IsCommand(c) && c.sep != Start
    ensures var t := c.lead + (Body(c.words) + c.tail); t != "" && t[0] != '|'
  {
    BodyPasses(c);
    TrimsToBody(c);
    hide IsCommand, Body, Trim;
    var t := c.lead + (Body(c.words) + c.tail);
    assert t != "";
    assert Calm(PLAIN, t[0]);
  }

  lemma {:induction false} SeparatorCuts(sep: Separator, rest: string, before: Separator, raw: string)
    requires sep != Start && rest != "" && rest[0] != '|'
    ensures Pieces(PLAIN, SepText(sep) + rest, before, raw) == [Piece(before, raw)] + Pieces(PLAIN, rest, sep, "")
  {
    SeparatorFound(sep, rest);
    hide SepAt;
    assert (SepText(sep) + rest)[|SepText(sep)|..] == rest;
  }

  lemma {:induction false} OnePasses(c: Command, more: string, before: Separator, raw: string)
    requires IsCommand(c) && c.sep != Start
    ensures Supported(PLAIN, PrintOne(c) + more) == Supported(PLAIN, more)
    ensures Pieces(PLAIN, PrintOne(c) + more, before, raw) == [Piece(before, raw)] + Pieces(PLAIN, more, c.sep, Around(c))
  {
    NoBarFirst(c);
    BodyPasses(c);
    hide IsCommand, AllCalm, Body, After, Supported, Pieces, SepText;
    var body := Around(c);
    Associates(SepText(c.sep), body, more);
    SeparatorFound(c.sep, body + more);
    SeparatorCuts(c.sep, body + more, before, raw);
    CalmPasses(PLAIN, body, more, c.sep, "");
    assert "" + body == body;
  }

  lemma {:induction false} PiecesOfPrint(cmds: seq<Command>, before: Separator, raw: string)
    requires Printable(cmds) && (cmds != [] ==> cmds[0].sep != Start)
    ensures Supported(PLAIN, Print(cmds))
    ensures Pieces(PLAIN, Print(cmds), before, raw) == [Piece(before, raw)] + PiecesAfter(cmds)
    decreases |cmds|
  {
    hide IsCommand, AllCalm, Body, After, PrintOne, Around;
    if cmds != [] {
      OnePasses(cmds[0], Print(cmds[1..]), before, raw);
      PiecesOfPrint(cmds[1..], cmds[0].sep, Around(cmds[0]));
      hide Supported, Pieces;
    }
  }

  function PiecesAfter(cmds: seq<Command>): seq<Piece> {
    if cmds == [] then []
    else [Piece(cmds[0].sep, Around(cmds[0]))] + PiecesAfter(cmds[1..])
  }

  lemma {:induction false} AllReport(cmds: seq<Command>)
    requires Printable(cmds)
    ensures Operations(Kept(PiecesAfter(cmds))) == Some(Expected(cmds))
  {
    hide IsCommand, Unwrapped, Body, Trim;
    if cmds != [] {
      var c := cmds[0];
      AllReport(cmds[1..]);
      KeptCons(Piece(c.sep, c.lead + (Body(c.words) + c.tail)), PiecesAfter(cmds[1..]));
      CommandReports(c, Kept(PiecesAfter(cmds[1..])));
    }
  }

  /** For every list of commands, with a separator before each but the first, normalizing the printed
      text gives exactly the expected operations, whatever way each word is quoted and spaced. */
  lemma {:induction false} NormalizeInvertsPrint(cmds: seq<Command>)
    requires cmds != [] && cmds[0].sep == Start && Printable(cmds)
    ensures Normalized(Print(cmds)) == Some(Expected(cmds))
  {
    FirstPasses(cmds);
    AllReport(cmds);
    hide Printable, Operations, Print, Supported, Pieces, Kept, Expected, PiecesAfter;
  }

  lemma {:induction false} FirstPasses(cmds: seq<Command>)
    requires cmds != [] && cmds[0].sep == Start && Printable(cmds)
    ensures Supported(PLAIN, Print(cmds))
    ensures Pieces(PLAIN, Print(cmds), Start, "") == PiecesAfter(cmds)
  {
    hide IsCommand, AllCalm, Body, Supported, Pieces;
    var (c, more) := (cmds[0], Print(cmds[1..]));
    BodyPasses(c);
    CalmPasses(PLAIN, Around(c), more, Start, "");
    assert "" + Around(c) == Around(c);
    PiecesOfPrint(cmds[1..], Start, Around(c));
  }

  // ---- Privilege wrappers ----

  /** The words between a wrapper and its command, perhaps ended by `--`. */
  datatype Options = Options(words: seq<string>, ended: bool)

  datatype Wrapping = Wrapping(sudo: Option<Options>, env: Option<Options>)

  function Opened(name: string, o: Options): seq<string> {
    [name] + (o.words + if o.ended then ["--"] else [])
  }

  /** What stands behind `sudo`. */
  function Inner(w: Wrapping, argv: seq<string>): seq<string> {
    (if w.env.Some? then Opened("env", w.env.value) else []) + argv
  }

  /** A command with the wrappers in front of it. */
  function Wrapped(w: Wrapping, argv: seq<string>): seq<string> {
    (if w.sudo.Some? then Opened("sudo", w.sudo.value) else []) + Inner(w, argv)
  }

  predicate Dashed(o: string) {
    o != "" && o[0] == '-'
  }

  /** Options only, and assignments where they are allowed; none of them ends the options. */
  predicate AllPassed(words: seq<string>, assignments: bool) {
    forall o :: o in words ==> (Dashed(o) || (assignments && '=' in o)) && o != "--"
  }

  /** Options before the command, assignments as well for `env`, and a command that is none of these. */
  predicate Wraps(w: Wrapping, argv: seq<string>) {
    && (w.sudo.Some? ==> AllPassed(w.sudo.value.words, false))
    && (w.env.Some? ==> AllPassed(w.env.value.words, true))
    && (argv != [] ==>
          if w.env.Some? then w.env.value.ended || (!Dashed(argv[0]) && '=' !in argv[0])
          else if w.sudo.Some? then argv[0] != "env" && (w.sudo.value.ended || !Dashed(argv[0]))
          else argv[0] != "sudo" && argv[0] != "env")
  }

  lemma {:induction false} OptionsSkipped(o: Options, rest: seq<string>, assignments: bool)
    requires AllPassed(o.words, assignments)
    requires rest == [] || o.ended || !(Dashed(rest[0]) || (assignments && '=' in rest[0]))
    ensures SkipOptions(o.words + ((if o.ended then ["--"] else []) + rest), assignments) == rest
    decreases |o.words|
  {
    var all := o.words + ((if o.ended then ["--"] else []) + rest);
    if o.words == [] {
      if o.ended { assert all[0] == "--" && all[1..] == rest; } else { assert all == rest; }
    } else {
      var later := o.words[1..];
      assert o.words[0] in o.words && all[0] == o.words[0];
      assert forall x :: x in later ==> x in o.words;
      assert all[1..] == later + ((if o.ended then ["--"] else []) + rest);
      OptionsSkipped(Options(later, o.ended), rest, assignments);
    }
  }

  lemma {:induction false} OpenedAt(name: string, o: Options, rest: seq<string>)
    ensures var all := Opened(name, o) + rest;
            all[0] == name && all[1..] == o.words + ((if o.ended then ["--"] else []) + rest)
  {
  }

  lemma {:induction false} EnvUnwraps(w: Wrapping, argv: seq<string>)
    requires Wraps(w, argv)
    ensures var inner := Inner(w, argv);
            && (if inner != [] && inner[0] == "env" then SkipOptions(inner[1..], true) else inner) == argv
            && (w.sudo.None? ==> inner == [] || inner[0] != "sudo")
            && (w.sudo.Some? ==> inner == [] || w.sudo.value.ended || !Dashed(inner[0]))
  {
    hide SkipOptions, Opened;
    if w.env.Some? {
      OpenedAt("env", w.env.value, argv);
      OptionsSkipped(w.env.value, argv, true);
      assert "env"[0] == 'e';
    } else {
      assert Inner(w, argv) == argv;
    }
  }

  /** Unwrapping takes exactly the wrappers away: `sudo` with its options, `env` with its options and
      assignments, both or neither. */
  lemma {:induction false} UnwrappingInvertsWrapping(w: Wrapping, argv: seq<string>)
    requires Wraps(w, argv)
    ensures Unwrapped(Wrapped(w, argv)) == argv
  {
    EnvUnwraps(w, argv);
    hide SkipOptions, Opened, Dashed;
    var inner := Inner(w, argv);
    if w.sudo.Some? {
      OpenedAt("sudo", w.sudo.value, inner);
      OptionsSkipped(w.sudo.value, inner, false);
    } else {
      assert Wrapped(w, argv) == inner;
    }
  }

  lemma {:induction false} OneMoreOption(x: string, o: Options, rest: seq<string>, assignments: bool)
    requires AllPassed(o.words, assignments) && (Dashed(x) || (assignments && '=' in x)) && x != "--"
    ensures AllPassed([x] + o.words, assignments)
    ensures var end := if o.ended then ["--"] else []; [x] + (o.words + (end + rest)) == ([x] + o.words) + (end + rest)
  {
    Associates([x], o.words, (if o.ended then ["--"] else []) + rest);
  }

  lemma {:induction false} OptionsFound(words: seq<string>, assignments: bool) returns (o: Options)
    ensures words == o.words + ((if o.ended then ["--"] else []) + SkipOptions(words, assignments))
    ensures AllPassed(o.words, assignments)
    ensures var rest := SkipOptions(words, assignments);
            rest == [] || o.ended || !(Dashed(rest[0]) || (assignments && '=' in rest[0]))
    decreases |words|
  {
    o := Options([], false);
    NoOptions(words, assignments);
    hide AllPassed;
    if words != [] && words[0] == "--" {
      o := Options([], true);
      assert words == ["--"] + words[1..];
    } else if words != [] && ("-" <= words[0] || (assignments && '=' in words[0])) {
      var later := OptionsFound(words[1..], assignments);
      OneMoreOption(words[0], later, SkipOptions(words[1..], assignments), assignments);
      HeadAndTail(words);
      o := Options([words[0]] + later.words, later.ended);
    }
  }

  lemma {:induction false} NoOptions(words: seq<string>, assignments: bool)
    ensures AllPassed([], assignments) && [] + ([] + words) == words && [] + (["--"] + words) == ["--"] + words
  {
  }

  /** A wrapper at the front, and what its options leave. */
  lemma {:induction false} WrapperFound(name: string, words: seq<string>, assignments: bool) returns (o: Options)
    requires words != [] && words[0] == name
    ensures var rest := SkipOptions(words[1..], assignments);
            && words == Opened(name, o) + rest && AllPassed(o.words, assignments)
            && (rest == [] || o.ended || !(Dashed(rest[0]) || (assignments && '=' in rest[0])))
  {
    hide SkipOptions, Dashed, AllPassed;
    o := OptionsFound(words[1..], assignments);
    assert words == Opened(name, o) + SkipOptions(words[1..], assignments);
  }

  /** Whatever the words are, what is left of them stands behind such wrappers and nothing else. */
  lemma {:induction false} EveryCommandIsWrapped(words: seq<string>) returns (w: Wrapping)
    ensures words == Wrapped(w, Unwrapped(words)) && Wraps(w, Unwrapped(words))
  {
    hide SkipOptions, Opened, Dashed, AllPassed;
    w := Wrapping(None, None);
    var inner := words;
    if words != [] && words[0] == "sudo" {
      var o := WrapperFound("sudo", words, false);
      w := w.(sudo := Some(o));
      inner := SkipOptions(words[1..], false);
    }
    if inner != [] && inner[0] == "env" {
      var o := WrapperFound("env", inner, true);
      w := w.(env := Some(o));
    }
  }

  // ---- What comes back ----

  lemma {:induction false} NonEmptyKeeps(words: seq<string>)
    ensures |NonEmpty(words)| <= |words|
    ensures NonEmpty(words) == words <==> forall w :: w in words ==> w != ""
  {
    if words != [] {
      NonEmptyKeeps(words[1..]);
      var rest := NonEmpty(words[1..]);
      if words[0] == "" {
        assert NonEmpty(words) == rest;
        assert words[0] in words;
      } else {
        assert NonEmpty(words) == [words[0]] + rest;
        assert words == [words[0]] + words[1..];
        assert NonEmpty(words)[1..] == rest;
        forall w ensures w in words <==> w == words[0] || w in words[1..] { }
      }
    }
  }

  /** The command is written behind these wrappers, every word of it non-empty. */
  predicate Writes(c: Command, w: Wrapping, argv: seq<string>) {
    Meanings(c.words) == Wrapped(w, argv) && Wraps(w, argv) && argv != [] && forall x :: x in Wrapped(w, argv) ==> x != ""
  }

  /** However the words are quoted and spaced, and whether or not commands stand behind `sudo` or `env`:
      what is reported is one operation for each command, with its argv, its separator and its text. */
  lemma {:induction false} CommandsComeBack(cmds: seq<Command>, wrappings: seq<Wrapping>, argvs: seq<seq<string>>)
    requires cmds != [] && cmds[0].sep == Start && Printable(cmds) && |wrappings| == |argvs| == |cmds|
    requires forall k :: 0 <= k < |cmds| ==> Writes(cmds[k], wrappings[k], argvs[k])
    ensures Normalized(Print(cmds)).Some?
    ensures var ops := Normalized(Print(cmds)).value;
            |ops| == |cmds| && forall k :: 0 <= k < |cmds| ==> ops[k] == Operation(argvs[k], cmds[k].sep, Body(cmds[k].words))
  {
    hide Writes, Normalized, Printable;
    NormalizeInvertsPrint(cmds);
    ExpectedOfWritten(cmds, wrappings, argvs);
  }

  lemma {:induction false} ExpectedFirst(cmds: seq<Command>, w: Wrapping, argv: seq<string>)
    requires cmds != [] && Writes(cmds[0], w, argv)
    ensures Expected(cmds) == [Operation(argv, cmds[0].sep, Body(cmds[0].words))] + Expected(cmds[1..])
  {
    hide Wraps, Wrapped, Unwrapped, Meanings, Body;
    NonEmptyKeeps(Meanings(cmds[0].words));
    UnwrappingInvertsWrapping(w, argv);
  }

  lemma {:induction false} ExpectedOfWritten(cmds: seq<Command>, wrappings: seq<Wrapping>, argvs: seq<seq<string>>)
    requires |wrappings| == |argvs| == |cmds|
    requires forall k :: 0 <= k < |cmds| ==> Writes(cmds[k], wrappings[k], argvs[k])
    ensures |Expected(cmds)| == |cmds|
    ensures forall k :: 0 <= k < |cmds| ==> Expected(cmds)[k] == Operation(argvs[k], cmds[k].sep, Body(cmds[k].words))
  {
    hide Writes, Body;
    if cmds != [] {
      ExpectedOfWritten(cmds[1..], wrappings[1..], argvs[1..]);
      ExpectedFirst(cmds, wrappings[0], argvs[0]);
      forall k | 0 < k < |cmds| ensures Expected(cmds)[k] == Operation(argvs[k], cmds[k].sep, Body(cmds[k].words)) {
        assert Expected(cmds)[k] == Expected(cmds[1..])[k - 1];
      }
    }
  }

  lemma {:induction false} NothingTakenIff(words: seq<string>)
    requires words != []
    ensures Unwrapped(NonEmpty(words)) == words <==> (forall x :: x in words ==> x != "") && words[0] != "sudo" && words[0] != "env"
  {
    NonEmptyKeeps(words);
    if Unwrapped(NonEmpty(words)) == words { SameLengthSame(words); }
  }

  /** A single command comes back as exactly its words if and only if it has words, none of them is
      empty, and it does not begin with a wrapper. */
  lemma {:induction false} SingleCommandIff(c: Command)
    requires IsCommand(c) && c.sep == Start
    ensures var words := Meanings(c.words);
            Normalized(Print([c])) == Some([Operation(words, Start, Body(c.words))])
            <==> words != [] && (forall x :: x in words ==> x != "") && words[0] != "sudo" && words[0] != "env"
  {
    var (cmds, words) := ([c], Meanings(c.words));
    NormalizeInvertsPrint(cmds);
    hide IsCommand, Normalized, Body, Meanings, Unwrapped, NonEmpty;
    assert cmds[1..] == [];
    var argv := Unwrapped(NonEmpty(words));
    var reported := Reported(argv, Segment(Body(c.words), Start));
    assert Expected(cmds) == reported + [] == reported;
    if words != [] { NothingTakenIff(words); }
    if reported == [Operation(words, Start, Body(c.words))] { assert reported[0].argv == words; }
  }

  lemma {:induction false} SameLengthSame(words: seq<string>)
    requires |NonEmpty(words)| == |words|
    ensures NonEmpty(words) == words
  {
    if words != [] {
      NonEmptyKeeps(words[1..]);
      SameLengthSame(words[1..]);
      assert words == [words[0]] + words[1..];
    }
  }

  /** A command with an empty argument is accepted and reported without it. */
  lemma {:induction false} EmptyWordVanishes()
    ensures Normalized("x ''") == Some([Operation(["x"], Start, "x ''")])
  {
    var words := [Spaced("", [Literal("x")]), Spaced(" ", [InSingle("")])];
    var c := Command(Start, "", words, "");
    PairIsCommand(words);
    PairReads(words);
    NormalizeInvertsPrint([c]);
    OnePrints(c, "x ''");
    hide Normalized, Printable, Body, Meanings, Unwrapped, Print;
    var reported := Reported(["x"], Segment("x ''", Start));
    assert [c][1..] == [];
    assert Expected([c]) == reported + Expected([]) == reported;
  }

  lemma {:induction false} OnePrints(c: Command, text: string)
    requires c.sep == Start && c.lead == c.tail == "" && Body(c.words) == text
    ensures Print([c]) == text
  {
    hide Body;
    assert [c][1..] == [];
    assert Around(c) == "" + (text + "") == text;
  }

  lemma {:induction false} PairIsCommand(words: seq<Spaced>)
    requires words == [Spaced("", [Literal("x")]), Spaced(" ", [InSingle("")])]
    ensures IsCommand(Command(Start, "", words, ""))
  {
    assert Ordinary('x');
    assert Writable(Literal("x")) && Writable(InSingle(""));
    assert Blank(" ") && Blank("");
  }

  lemma {:induction false} PairReads(words: seq<Spaced>)
    requires words == [Spaced("", [Literal("x")]), Spaced(" ", [InSingle("")])]
    ensures Body(words) == "x ''" && Unwrapped(NonEmpty(Meanings(words))) == ["x"]
  {
    var (a, b) := ([Literal("x")], [InSingle("")]);
    assert a[1..] == [] && b[1..] == [];
    assert WordText(a) == "x" + "" == "x" && WordText(b) == "''" + "" == "''";
    assert WordMeaning(a) == "x" + "" == "x" && WordMeaning(b) == "" + "" == "";
    var later := words[1..];
    assert later == [Spaced(" ", b)] && later[1..] == [];
    assert Rest(later) == " " + ("''" + "") == " ''";
    assert Meanings(later) == [""] + [] && Meanings(words) == ["x"] + [""];
    assert ["x", ""][1..] == [""] && [""][1..] == [];
    assert NonEmpty([""]) == [] + [] && NonEmpty(["x", ""]) == ["x"] + [];
  }
}
