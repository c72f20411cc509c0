/** What the three scanners guarantee together, for every command text. */
module ShellTheorems {
  import opened Wrappers
  import opened ShellSyntax

  // ---- One quoting state for all scanners ----

  lemma {:induction false} AfterConcat(m: Mode, a: string, b: string)
    ensures After(m, a + b) == After(After(m, a), b)
    decreases |a|
  {
    if a == [] {
      assert a + b == b;
    } else {
      assert (a + b)[0] == a[0] && (a + b)[1..] == a[1..] + b;
      AfterConcat(Next(m, a[0]), a[1..], b);
    }
  }

  /** The tokenizer is always in the automaton's state. */
  lemma {:induction false} TokenizerMode(w: Words, s: string)
    ensures WordRun(w, s).mode == After(w.mode, s)
    decreases |s|
  {
    if s != [] {
      TokenizerMode(WordStep(w, s[0]), s[1..]);
    }
  }

  // ---- Cuts ----

  function Joined(ps: seq<Piece>): string {
    if ps == [] then "" else SepText(ps[0].sep) + ps[0].raw + Joined(ps[1..])
  }

  lemma {:induction false} SepPlain(sep: Separator)
    ensures After(PLAIN, SepText(sep)) == PLAIN
  {
    match sep
    case AndAnd => assert "&&"[1..] == "&";
    case OrOr => assert "||"[1..] == "|";
    case _ =>
  }

  /** Every input character is in exactly one piece or separator, in order. */
  lemma {:induction false} PiecesAccount(m: Mode, s: string, sep: Separator, raw: string)
    ensures Joined(Pieces(m, s, sep, raw)) == SepText(sep) + raw + s
    decreases |s|
  {
    hide Joined, Next, SepAt, SepText;
    var head := SepText(sep);
    if s == [] {
      JoinedOne(Piece(sep, raw));
      assert head + raw + s == head + raw;
    } else if m == PLAIN && SepAt(s) != Start {
      var n := |SepText(SepAt(s))|;
      var later := Pieces(PLAIN, s[n..], SepAt(s), "");
      PiecesAccount(PLAIN, s[n..], SepAt(s), "");
      JoinedCons(Piece(sep, raw), later);
      assert SepText(SepAt(s)) + "" + s[n..] == s;
    } else {
      PiecesAccount(Next(m, s[0]), s[1..], sep, raw + [s[0]]);
      Regroup(head, raw, s);
    }
  }

  lemma {:induction false} JoinedOne(p: Piece)
    ensures Joined([p]) == SepText(p.sep) + p.raw
  {
    assert [p][1..] == [];
    assert SepText(p.sep) + p.raw + "" == SepText(p.sep) + p.raw;
  }

  lemma {:induction false} JoinedCons(p: Piece, ps: seq<Piece>)
    ensures Joined([p] + ps) == SepText(p.sep) + p.raw + Joined(ps)
  {
    assert ([p] + ps)[1..] == ps;
  }

  lemma {:induction false} Regroup(head: string, raw: string, s: string)
    requires s != []
    ensures head + (raw + [s[0]]) + s[1..] == head + raw + s
  {
  }

  /** Pieces start outside quotes, all but the last also end there, and the last one ends in the
      state the whole text ends in. */
  ghost predicate CutOutsideQuotes(ps: seq<Piece>, end: Mode) {
    && ps != []
    && (forall i :: 0 <= i < |ps| - 1 ==> After(PLAIN, ps[i].raw) == PLAIN)
    && After(PLAIN, ps[|ps| - 1].raw) == end
  }

  lemma {:induction false} PiecesCut(m: Mode, s: string, sep: Separator, raw: string)
    requires After(PLAIN, raw) == m
    ensures CutOutsideQuotes(Pieces(m, s, sep, raw), After(m, s))
    decreases |s|
  {
    if s == [] {
    } else if m == PLAIN && SepAt(s) != Start {
      var n := |SepText(SepAt(s))|;
      PiecesCut(PLAIN, s[n..], SepAt(s), "");
      SepPlain(SepAt(s));
      assert s == SepText(SepAt(s)) + s[n..];
      AfterConcat(PLAIN, SepText(SepAt(s)), s[n..]);
    } else {
      AfterConcat(PLAIN, raw, [s[0]]);
      assert [s[0]][1..] == [];
      PiecesCut(Next(m, s[0]), s[1..], sep, raw + [s[0]]);
    }
  }

  /** Where the text of a piece stands in the command, the automaton run over the whole command
      is in the state of the automaton run over the piece alone. */
  lemma {:induction false} PieceModes(ps: seq<Piece>, end: Mode, i: nat, k: nat)
    requires CutOutsideQuotes(ps, end) && i < |ps| && k <= |ps[i].raw|
    ensures After(PLAIN, Joined(ps[..i]) + SepText(ps[i].sep) + ps[i].raw[..k]) == After(PLAIN, ps[i].raw[..k])
  {
    JoinedPlain(ps, end, i);
    SepPlain(ps[i].sep);
    AfterConcat(PLAIN, Joined(ps[..i]), SepText(ps[i].sep));
    AfterConcat(PLAIN, Joined(ps[..i]) + SepText(ps[i].sep), ps[i].raw[..k]);
  }

  lemma {:induction false} JoinedPlain(ps: seq<Piece>, end: Mode, i: nat)
    requires CutOutsideQuotes(ps, end) && i < |ps|
    ensures After(PLAIN, Joined(ps[..i])) == PLAIN
  {
    if i > 0 {
      JoinedPlain(ps[1..], end, i - 1);
      assert ps[..i][1..] == ps[1..][..i - 1];
      SepPlain(ps[0].sep);
      AfterConcat(PLAIN, SepText(ps[0].sep), ps[0].raw);
      AfterConcat(PLAIN, SepText(ps[0].sep) + ps[0].raw, Joined(ps[1..][..i - 1]));
    }
  }

  /** No character outside quotes that the shell would treat as composition or redirection. */
  predicate Inert(m: Mode, s: string)
    decreases |s|
  {
    s == [] || ((m == PLAIN ==> s[0] !in {';', '|', '(', ')', '&', '<', '>', '\n', '\r', '`'}) && Inert(Next(m, s[0]), s[1..]))
  }

  lemma {:induction false} InertExtend(m: Mode, s: string, c: char)
    requires Inert(m, s)
    requires After(m, s) == PLAIN ==> c !in {';', '|', '(', ')', '&', '<', '>', '\n', '\r', '`'}
    ensures Inert(m, s + [c])
    decreases |s|
  {
    if s == [] {
      assert [c][1..] == [];
      assert s + [c] == [c];
    } else {
      assert (s + [c])[0] == s[0] && (s + [c])[1..] == s[1..] + [c];
      InertExtend(Next(m, s[0]), s[1..], c);
    }
  }

  /** In a supported command no segment keeps an unquoted separator, redirection, newline or `&`. */
  lemma {:induction false} PiecesInert(m: Mode, s: string, sep: Separator, raw: string)
    requires After(PLAIN, raw) == m && Inert(PLAIN, raw) && Supported(m, s)
    ensures forall p :: p in Pieces(m, s, sep, raw) ==> Inert(PLAIN, p.raw)
    decreases |s|
  {
    if s == [] {
    } else if m == PLAIN && SepAt(s) != Start {
      var n := |SepText(SepAt(s))|;
      SupportedAfterSeparator(s);
      PiecesInert(PLAIN, s[n..], SepAt(s), "");
    } else {
      AfterConcat(PLAIN, raw, [s[0]]);
      assert [s[0]][1..] == [];
      InertExtend(PLAIN, raw, s[0]);
      PiecesInert(Next(m, s[0]), s[1..], sep, raw + [s[0]]);
    }
  }

  lemma {:induction false} SupportedAfterSeparator(s: string)
    requires s != [] && SepAt(s) != Start && Supported(PLAIN, s)
    ensures Supported(PLAIN, s[|SepText(SepAt(s))|..])
  {
    if SepAt(s) == OrOr {
      assert s[1] == '|' && s[1..][1..] == s[2..];
    }
  }

  /** For every command: cuts fall outside quotes, nothing is lost or reordered, and in every
      accepted command the pieces are inert. */
  lemma {:induction false} SplittingIsSound(command: string)
    ensures var ps := Pieces(PLAIN, command, Start, "");
            && Joined(ps) == command
            && CutOutsideQuotes(ps, After(PLAIN, command))
            && (Supported(PLAIN, command) ==> forall p :: p in ps ==> Inert(PLAIN, p.raw))
  {
    PiecesAccount(PLAIN, command, Start, "");
    assert SepText(Start) + "" + command == command;
    PiecesCut(PLAIN, command, Start, "");
    if Supported(PLAIN, command) {
      PiecesInert(PLAIN, command, Start, "");
    }
  }

  // ---- Trimming ----

  ghost predicate AllSpaces(s: string) {
    forall i :: 0 <= i < |s| ==> IsSpace(s[i])
  }

  lemma {:induction false} TrimStartSplits(s: string) returns (lead: string)
    ensures s == lead + TrimStart(s) && AllSpaces(lead)
  {
    lead := "";
    if s != [] && IsSpace(s[0]) {
      var more := TrimStartSplits(s[1..]);
      lead := [s[0]] + more;
    }
  }

  lemma {:induction false} RunConcat(w: Words, a: string, b: string)
    ensures WordRun(w, a + b) == WordRun(WordRun(w, a), b)
    decreases |a|
  {
    if a == [] {
      assert a + b == b;
    } else {
      assert (a + b)[0] == a[0] && (a + b)[1..] == a[1..] + b;
      RunConcat(WordStep(w, a[0]), a[1..], b);
    }
  }

  /** Unquoted white space only ends the current word. */
  lemma {:induction false} SpacesEndWord(w: Words, s: string)
    requires w.mode == PLAIN && AllSpaces(s)
    ensures s != [] ==> WordRun(w, s) == Flush(w)
    ensures Flush(WordRun(w, s)) == Flush(w)
    decreases |s|
  {
    if s != [] {
      assert Next(PLAIN, s[0]) == PLAIN;
      assert AllSpaces(s[1..]);
      SpacesEndWord(Flush(w), s[1..]);
      assert Flush(Flush(w)) == Flush(w);
    }
  }

  /** White space inside quotes or after a backslash becomes part of the word. */
  lemma {:induction false} SpacesGrowWord(w: Words, s: string)
    requires w.buffer != "" && AllSpaces(s)
    ensures var ts := Flush(WordRun(w, s)).tokens;
            |ts| == |w.tokens| + 1 && ts[..|w.tokens|] == w.tokens && |ts[|w.tokens|].value| >= |w.buffer|
    decreases |s|
  {
    if s != [] {
      if w.mode == PLAIN {
        SpacesEndWord(w, s);
      } else {
        assert AllSpaces(s[1..]);
        SpacesGrowWord(WordStep(w, s[0]), s[1..]);
      }
    }
  }

  /** Trimming the front never changes the words, and trimming the back keeps them exactly when
      the trimmed text ends outside quotes and escapes or nothing was cut off. */
  lemma {:induction false} TrimKeepsWordsIff(s: string)
    ensures Tokens(s) == Tokens(Trim(s))
       <==> (After(PLAIN, Trim(s)) == PLAIN || Trim(s) == TrimStart(s))
  {
    LeadingSpacesIgnored(s);
    var body, text := TrimStart(s), Trim(s);
    var tail := body[|text|..];
    assert body == text + tail;
    assert AllSpaces(tail);
    RunConcat(NO_WORDS, text, tail);
    TokenizerMode(NO_WORDS, text);
    TailMatters(WordRun(NO_WORDS, text), tail);
    assert tail == "" <==> text == body;
  }

  lemma {:induction false} LeadingSpacesIgnored(s: string)
    ensures Tokens(s) == Tokens(TrimStart(s))
  {
    var lead := TrimStartSplits(s);
    RunConcat(NO_WORDS, lead, TrimStart(s));
    SpacesEndWord(NO_WORDS, lead);
    assert Flush(NO_WORDS) == NO_WORDS;
    assert WordRun(NO_WORDS, lead) == NO_WORDS;
  }

  lemma {:induction false} TailMatters(w: Words, tail: string)
    requires AllSpaces(tail)
    ensures Flush(WordRun(w, tail)).tokens == Flush(w).tokens <==> (w.mode == PLAIN || tail == "")
  {
    if w.mode == PLAIN {
      SpacesEndWord(w, tail);
    } else if tail != "" {
      var next := WordStep(w, tail[0]);
      assert next.buffer == w.buffer + [tail[0]] && next.tokens == w.tokens;
      assert AllSpaces(tail[1..]);
      SpacesGrowWord(next, tail[1..]);
    }
  }

  /** The words of `x`, a backslash and a space: one word that ends in the space. Without the space,
      the word is `x`. */
  lemma {:induction false} EscapedSpaceIsAWord()
    ensures Tokens("x\\ ") == [Token("x ", false)]
    ensures Trim("x\\ ") == "x\\" && Tokens("x\\") == [Token("x", false)]
  {
    var a := "x\\ ";
    assert a[1..] == "\\ " && a[1..][1..] == " " && " "[1..] == "";
    var w1 := WordStep(NO_WORDS, 'x');
    assert w1 == Words([], "x", PLAIN, false);
    var w2 := WordStep(w1, '\\');
    assert w2 == Words([], "x", Mode(Bare, true), false);
    var w3 := WordStep(w2, ' ');
    assert w3 == Words([], "x ", PLAIN, false);
    assert WordRun(w2, " ") == w3;
    assert WordRun(w1, "\\ ") == w3;
    assert WordRun(NO_WORDS, a) == w3;
    assert "x\\"[1..] == "\\" && "\\"[1..] == "";
    assert WordRun(w1, "\\") == w2;
    assert WordRun(NO_WORDS, "x\\") == w2;
    assert a[..2] == "x\\";
    assert !IsSpace('x') && !IsSpace('\\') && IsSpace(' ');
  }

  lemma {:induction false} EscapedSpaceIsSupported()
    ensures Supported(PLAIN, "x\\ ")
  {
    var a := "x\\ ";
    assert a[1..] == "\\ " && a[1..][1..] == " " && " "[1..] == "";
    assert Supported(PLAIN, "");
    assert Supported(Mode(Bare, true), " ");
    assert Supported(PLAIN, "\\ ");
  }

  lemma {:induction false} EscapedSpaceIsOnePiece()
    ensures Pieces(PLAIN, "x\\ ", Start, "") == [Piece(Start, "x\\ ")]
  {
    var a := "x\\ ";
    var m := Mode(Bare, true);
    assert a[1..] == "\\ " && a[1..][1..] == " " && " "[1..] == "";
    assert "" + ['x'] == "x" && "x" + ['\\'] == "x\\" && "x\\" + [' '] == a;
    PlainStep(a, "");
    PlainStep("\\ ", "x");
    EscapedEnd(' ', "x\\");
  }

  lemma {:induction false} PlainStep(s: string, raw: string)
    requires s != "" && s[0] !in {'&', '|', ';', '(', ')'}
    ensures Pieces(PLAIN, s, Start, raw) == Pieces(Next(PLAIN, s[0]), s[1..], Start, raw + [s[0]])
  {
    assert SepAt(s) == Start;
  }

  lemma {:induction false} EscapedEnd(c: char, raw: string)
    ensures Pieces(Mode(Bare, true), [c], Start, raw) == [Piece(Start, raw + [c])]
  {
    assert [c][1..] == "";
    assert Pieces(PLAIN, "", Start, raw + [c]) == [Piece(Start, raw + [c])];
  }

  /** A backslash-escaped space at the end of a command is trimmed away: the normalizer accepts the
      command and reports it with another argument than the shell would pass. */
  lemma {:induction false} EscapedTrailingSpaceIsLost()
    ensures Tokens("x\\ ") == [Token("x ", false)]
    ensures Normalized("x\\ ") == Some([Operation(["x"], Start, "x\\")])
  {
    EscapedSpaceIsAWord();
    EscapedSpaceIsSupported();
    EscapedSpaceIsOnePiece();
    KeptOne(Piece(Start, "x\\ "));
    OneSegment(Segment("x\\", Start), "x");
    hide Kept, Pieces, Tokens, Trim, Supported, Operations;
  }

  lemma {:induction false} KeptOne(p: Piece)
    requires Trim(p.raw) != ""
    ensures Kept([p]) == [Segment(Trim(p.raw), p.sep)]
  {
    assert [p][1..] == [];
  }

  lemma {:induction false} OneSegment(segment: Segment, word: string)
    requires Tokens(segment.text) == [Token(word, false)] && word != "sudo" && word != "env"
    ensures Operations([segment]) == Some([Operation([word], segment.precededBy, segment.text)])
  {
    hide Tokens;
    var ts := Tokens(segment.text);
    assert !Dynamic(ts);
    assert [segment][1..] == [];
    assert Operations([]) == Some([]);
    OneValue(ts[0]);
    var reported := Reported([word], segment);
    assert reported + [] == reported;
    assert Operations([segment]) == Some(reported + []);
  }

  lemma {:induction false} OneValue(t: Token)
    requires t.value != "sudo" && t.value != "env"
    ensures Unwrapped(Values([t])) == [t.value]
  {
    assert [t][1..] == [];
    assert Values([]) == [];
  }
}
