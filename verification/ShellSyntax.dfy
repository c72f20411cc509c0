/** The quoting model of the shell-command normalizer and its three scanners as functions:
    the syntax guard, the splitter at separators, and the tokenizer. */
module ShellSyntax {
  import opened Wrappers

  datatype Quote = Bare | Single | Double

  /** What a scanner remembers between characters: the open quote and a pending backslash. */
  datatype Mode = Mode(quote: Quote, escaped: bool)

  const PLAIN := Mode(Bare, false)

  /** The quoting automaton. */
  function Next(m: Mode, c: char): Mode {
    if m.escaped then Mode(m.quote, false)
    else if c == '\\' && m.quote != Single then Mode(m.quote, true)
    else match m.quote
         case Single => if c == '\'' then PLAIN else m
         case Double => if c == '"' then PLAIN else m
         case Bare => if c == '\'' then Mode(Single, false) else if c == '"' then Mode(Double, false) else m
  }

  function After(m: Mode, s: string): Mode
    decreases |s|
  {
    if s == [] then m else After(Next(m, s[0]), s[1..])
  }

  // ---- Scanner 1: syntax the normalizer refuses to model ----

  predicate Substitution(s: string)
    requires s != []
  {
    s[0] == '`' || (s[0] == '$' && |s| > 1 && s[1] == '(')
  }

  /** `assertSupportedShellSyntax` from mode `m` on. */
  predicate Supported(m: Mode, s: string)
    decreases |s|
  {
    if s == [] then true
    else if m.escaped then s[0] != '\n' && s[0] != '\r' && Supported(Next(m, s[0]), s[1..])
    else if (s[0] == '\\' && m.quote != Single) || m.quote == Single then Supported(Next(m, s[0]), s[1..])
    else if m.quote == Double then !Substitution(s) && Supported(Next(m, s[0]), s[1..])
    else if s[0] == '\n' || s[0] == '\r' || s[0] == '>' || s[0] == '<' || Substitution(s) then false
    else if s[0] == '&' then |s| > 1 && s[1] == '&' && Supported(m, s[2..])
    else Supported(Next(m, s[0]), s[1..])
  }

  // ---- Scanner 2: cutting at separators ----

  datatype Separator = Start | AndAnd | OrOr | Semi | Pipe | Open | Close

  function SepText(sep: Separator): string {
    match sep
    case Start => ""
    case AndAnd => "&&"
    case OrOr => "||"
    case Semi => ";"
    case Pipe => "|"
    case Open => "("
    case Close => ")"
  }

  /** The separator an unquoted position starts with, longest first; Start if none. */
  function SepAt(s: string): (sep: Separator)
    requires s != []
    ensures SepText(sep) <= s
  {
    if "&&" <= s then AndAnd
    else if "||" <= s then OrOr
    else if s[0] == ';' then Semi
    else if s[0] == '|' then Pipe
    else if s[0] == '(' then Open
    else if s[0] == ')' then Close
    else Start
  }

  /** A stretch of the command with the separator before it, before trimming. */
  datatype Piece = Piece(sep: Separator, raw: string)

  /** `splitShellComposition` from mode `m` on, with `raw` collected since separator `sep`. */
  function Pieces(m: Mode, s: string, sep: Separator, raw: string): (ps: seq<Piece>)
    ensures |ps| > 0
    decreases |s|
  {
    if s == [] then [Piece(sep, raw)]
    else if m == PLAIN && SepAt(s) != Start then
      [Piece(sep, raw)] + Pieces(PLAIN, s[|SepText(SepAt(s))|..], SepAt(s), "")
    else Pieces(Next(m, s[0]), s[1..], sep, raw + [s[0]])
  }

  /** White space of `trim` and of `\s`: the same set of characters. */
  predicate IsSpace(c: char) {
    c in {' ', '\t', '\n', '\r', '\U{000B}', '\U{000C}', '\U{00A0}', '\U{1680}', '\U{2028}', '\U{2029}',
          '\U{202F}', '\U{205F}', '\U{3000}', '\U{FEFF}'}
    || '\U{2000}' <= c <= '\U{200A}'
  }

  function TrimStart(s: string): string {
    if s != [] && IsSpace(s[0]) then TrimStart(s[1..]) else s
  }

  function TrimEnd(s: string): (r: string)
    ensures r <= s
    ensures forall i :: |r| <= i < |s| ==> IsSpace(s[i])
    ensures r != [] ==> !IsSpace(r[|r| - 1])
  {
    if s != [] && IsSpace(s[|s| - 1]) then TrimEnd(s[..|s| - 1]) else s
  }

  function Trim(s: string): string {
    TrimEnd(TrimStart(s))
  }

  datatype Segment = Segment(text: string, precededBy: Separator)

  /** Trimmed, non-empty pieces. */
  function Kept(ps: seq<Piece>): seq<Segment> {
    if ps == [] then []
    else (if Trim(ps[0].raw) == "" then [] else [Segment(Trim(ps[0].raw), ps[0].sep)]) + Kept(ps[1..])
  }

  lemma {:induction false} KeptCons(p: Piece, ps: seq<Piece>)
    ensures Kept([p] + ps) == Kept([p]) + Kept(ps)
  {
    assert ([p] + ps)[1..] == ps && [p][1..] == [];
  }

  function Segments(command: string): seq<Segment> {
    Kept(Pieces(PLAIN, command, Start, ""))
  }

  // ---- Scanner 3: words ----

  datatype Token = Token(value: string, expansion: bool)
  datatype Words = Words(tokens: seq<Token>, buffer: string, mode: Mode, expansion: bool)

  const NO_WORDS := Words([], "", PLAIN, false)

  function Flush(w: Words): Words {
    Words(if w.buffer == "" then w.tokens else w.tokens + [Token(w.buffer, w.expansion)], "", w.mode, false)
  }

  predicate Expands(w: Words, c: char) {
    (c == '~' && w.buffer == "") || c == '*' || c == '?' || c == '[' || c == '$' || c == '{'
  }

  /** One character of `tokenize`. */
  function WordStep(w: Words, c: char): Words {
    var mode := Next(w.mode, c);
    if w.mode.escaped then w.(buffer := w.buffer + [c], mode := mode)
    else if c == '\\' && w.mode.quote != Single then w.(mode := mode)
    else if w.mode.quote != Bare then
      if mode == PLAIN then w.(mode := mode)
      else w.(buffer := w.buffer + [c], expansion := w.expansion || (w.mode.quote == Double && c == '$'))
    else if c == '\'' || c == '"' then w.(mode := mode)
    else if IsSpace(c) then Flush(w)
    else w.(buffer := w.buffer + [c], expansion := w.expansion || Expands(w, c))
  }

  function WordRun(w: Words, s: string): Words
    decreases |s|
  {
    if s == [] then w else WordRun(WordStep(w, s[0]), s[1..])
  }

  function Tokens(s: string): seq<Token> {
    Flush(WordRun(NO_WORDS, s)).tokens
  }

  function Values(ts: seq<Token>): seq<string> {
    if ts == [] then [] else [ts[0].value] + Values(ts[1..])
  }

  // ---- Privilege wrappers ----

  function SkipOptions(words: seq<string>, assignments: bool): (r: seq<string>)
    ensures |r| <= |words|
  {
    if words == [] then []
    else if words[0] == "--" then words[1..]
    else if "-" <= words[0] || (assignments && '=' in words[0]) then SkipOptions(words[1..], assignments)
    else words
  }

  /** The argv left once a leading `sudo` and a leading `env` and their options are removed. */
  function Unwrapped(words: seq<string>): seq<string> {
    var inner := if words != [] && words[0] == "sudo" then SkipOptions(words[1..], false) else words;
    if inner != [] && inner[0] == "env" then SkipOptions(inner[1..], true) else inner
  }

  // ---- The whole normalizer ----

  datatype Operation = Operation(argv: seq<string>, precededBy: Separator, raw: string)

  predicate Dynamic(ts: seq<Token>) {
    exists i :: 0 <= i < |ts| && ts[i].expansion
  }

  /** A segment without a command reports nothing. */
  function Reported(argv: seq<string>, segment: Segment): seq<Operation> {
    if argv == [] then [] else [Operation(argv, segment.precededBy, segment.text)]
  }

  /** Operations of the segments, or None when some word would be expanded by the shell. */
  function Operations(segs: seq<Segment>): Option<seq<Operation>> {
    if segs == [] then Some([])
    else
      var ts := Tokens(segs[0].text);
      var argv := Unwrapped(Values(ts));
      var rest := Operations(segs[1..]);
      if Dynamic(ts) || rest == None then None
      else Some(Reported(argv, segs[0]) + rest.value)
  }

  function Normalized(command: string): Option<seq<Operation>> {
    if Supported(PLAIN, command) then Operations(Segments(command)) else None
  }
}
