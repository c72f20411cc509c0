/** Which commands the normalizer refuses, told from the characters of the command and the state of the
    quoting automaton at each of them. */
module ShellRefusals {
  import opened Wrappers
  import opened ShellSyntax
  import opened ShellTheorems

  // ----- syntax -----

  /** How many unquoted ampersands stand directly before position `i`. */
  function Ampersands(m: Mode, s: string, i: nat): nat
    requires i <= |s|
  {
    if i > 0 && s[i - 1] == '&' && After(m, s[..i - 1]) == PLAIN then Ampersands(m, s, i - 1) + 1 else 0
  }

  /** A character that must not stand where it stands: a newline outside quotes or after a backslash, a
      redirection or a lone ampersand outside quotes, a command substitution outside single quotes. */
  predicate Offends(m: Mode, s: string, i: nat)
    requires i < |s|
  {
    var (at, c) := (After(m, s[..i]), s[i]);
    var substitutes := c == '`' || (c == '$' && i + 1 < |s| && s[i + 1] == '(');
    if at.escaped then c == '\n' || c == '\r'
    else match at.quote
         case Single => false
         case Double => substitutes
         case Bare => || c == '\n' || c == '\r' || c == '<' || c == '>' || substitutes
                      || (c == '&' && Ampersands(m, s, i) % 2 == 0 && (i + 1 == |s| || s[i + 1] != '&'))
  }

  lemma {:induction false} AfterOneMore(m: Mode, s: string, i: nat)
    requires 0 < i <= |s|
    ensures After(m, s[..i]) == After(Next(m, s[0]), s[1..][..i - 1])
  {
    assert s[..i][1..] == s[1..][..i - 1];
  }

  lemma {:induction false} SameCount(m: Mode, s: string, i: nat)
    requires 0 < i <= |s| && !(s[0] == '&' && m == PLAIN)
    ensures Ampersands(m, s, i) == Ampersands(Next(m, s[0]), s[1..], i - 1)
  {
    if i > 1 {
      AfterOneMore(m, s, i - 1);
      SameCount(m, s, i - 1);
    } else {
      assert s[..0] == "";
    }
  }

  lemma {:induction false} SameParity(s: string, i: nat)
    requires |s| >= 2 && s[0] == '&' && s[1] == '&' && 2 <= i <= |s|
    ensures After(PLAIN, s[..i]) == After(PLAIN, s[2..][..i - 2])
    ensures Ampersands(PLAIN, s, i) % 2 == Ampersands(PLAIN, s[2..], i - 2) % 2
  {
    AfterOneMore(PLAIN, s, i);
    AfterOneMore(PLAIN, s[1..], i - 1);
    assert s[1..][1..] == s[2..];
    if i > 2 {
      SameParity(s, i - 1);
    } else {
      FirstTwo(s);
    }
  }

  lemma {:induction false} FirstTwo(s: string)
    requires |s| >= 2 && s[0] == '&' && s[1] == '&'
    ensures Ampersands(PLAIN, s, 0) == 0 && Ampersands(PLAIN, s, 1) == 1 && Ampersands(PLAIN, s, 2) == 2
  {
    assert s[..0] == "" && s[..1] == "&" && s[..1][1..] == "";
    assert After(PLAIN, s[..1]) == PLAIN;
  }

  /** Nothing but what follows the first character decides about the positions after it. */
  lemma {:induction false} OffendsLater(m: Mode, s: string, i: nat)
    requires 0 < i < |s| && !(s[0] == '&' && m == PLAIN)
    ensures Offends(m, s, i) <==> Offends(Next(m, s[0]), s[1..], i - 1)
  {
    AfterOneMore(m, s, i);
    SameCount(m, s, i);
  }

  lemma {:induction false} OffendsAfterPair(s: string, i: nat)
    requires |s| >= 2 && s[0] == '&' && s[1] == '&' && 2 <= i < |s|
    ensures Offends(PLAIN, s, i) <==> Offends(PLAIN, s[2..], i - 2)
  {
    SameParity(s, i);
  }

  lemma {:induction false} SupportedFrom(m: Mode, s: string)
    ensures Supported(m, s) <==> forall i :: 0 <= i < |s| ==> !Offends(m, s, i)
    decreases |s|
  {
    if s != "" {
      assert s[..0] == "";
      if m == PLAIN && s[0] == '&' {
        AtAmpersand(s);
      } else {
        var (n, t) := (Next(m, s[0]), s[1..]);
        SupportedFrom(n, t);
        forall i | 0 < i < |s| ensures Offends(m, s, i) <==> Offends(n, t, i - 1) { OffendsLater(m, s, i); }
        assert Supported(m, s) <==> !Offends(m, s, 0) && Supported(n, t);
        hide Offends, Supported;
        if forall i :: 0 <= i < |s| ==> !Offends(m, s, i) {
          forall i | 0 <= i < |t| ensures !Offends(n, t, i) { assert Offends(m, s, i + 1) <==> Offends(n, t, i); }
        }
      }
    }
  }

  lemma {:induction false} AtAmpersand(s: string)
    requires s != "" && s[0] == '&'
    ensures Supported(PLAIN, s) <==> forall i :: 0 <= i < |s| ==> !Offends(PLAIN, s, i)
    decreases |s|, 0
  {
    assert s[..0] == "";
    if |s| > 1 && s[1] == '&' {
      var t := s[2..];
      SupportedFrom(PLAIN, t);
      FirstTwo(s);
      forall i | 2 <= i < |s| ensures Offends(PLAIN, s, i) <==> Offends(PLAIN, t, i - 2) { OffendsAfterPair(s, i); }
      assert s[..1] == "&" && s[..1][1..] == "" && After(PLAIN, s[..1]) == PLAIN;
      assert !Offends(PLAIN, s, 0) && !Offends(PLAIN, s, 1);
      assert Supported(PLAIN, s) == Supported(PLAIN, t);
      hide Offends, Supported;
      if forall i :: 0 <= i < |s| ==> !Offends(PLAIN, s, i) {
        forall i | 0 <= i < |t| ensures !Offends(PLAIN, t, i) { assert Offends(PLAIN, s, i + 2) <==> Offends(PLAIN, t, i); }
      }
    } else {
      assert Offends(PLAIN, s, 0);
    }
  }

  /** The syntax guard accepts a command exactly if no character offends. */
  lemma {:induction false} SupportedIff(command: string)
    ensures Supported(PLAIN, command) <==> forall i :: 0 <= i < |command| ==> !Offends(PLAIN, command, i)
  {
    SupportedFrom(PLAIN, command);
  }

  // ----- expansion -----

  /** A character the shell would expand: a pattern, brace or variable outside quotes, a tilde outside
      quotes before anything of its word, a variable inside double quotes. */
  predicate Expanding(s: string, i: nat)
    requires i < |s|
  {
    var (at, c) := (After(PLAIN, s[..i]), s[i]);
    if at.escaped then false
    else match at.quote
         case Single => false
         case Double => c == '$'
         case Bare => c == '$' || c == '*' || c == '?' || c == '[' || c == '{'
                      || (c == '~' && WordRun(NO_WORDS, s[..i]).buffer == "")
  }

  /** Some word so far, or the one being read, would be expanded. */
  predicate Marked(w: Words) {
    Dynamic(w.tokens) || w.expansion
  }

  lemma {:induction false} FlushKeepsMarks(w: Words)
    requires w.expansion ==> w.buffer != ""
    ensures Dynamic(Flush(w).tokens) <==> Marked(w)
    ensures Marked(Flush(w)) <==> Marked(w)
  {
    var ts := Flush(w).tokens;
    if w.buffer != "" {
      assert ts[|w.tokens|] == Token(w.buffer, w.expansion);
      forall i | 0 <= i < |w.tokens| ensures ts[i] == w.tokens[i] { }
    }
  }

  lemma {:induction false} MarksSoFar(s: string)
    ensures var w := WordRun(NO_WORDS, s);
            && (w.expansion ==> w.buffer != "")
            && (Marked(w) <==> exists i :: 0 <= i < |s| && Expanding(s, i))
    decreases |s|
  {
    if s != "" {
      var (t, c) := (s[..|s| - 1], s[|s| - 1]);
      assert s == t + [c] && [c][1..] == "";
      var w := WordRun(NO_WORDS, t);
      MarksSoFar(t);
      RunConcat(NO_WORDS, t, [c]);
      TokenizerMode(NO_WORDS, t);
      FlushKeepsMarks(w);
      StepMarks(w, c, s, t);
      forall i | 0 <= i < |t| ensures Expanding(t, i) <==> Expanding(s, i) { assert t[..i] == s[..i]; }
      hide Expanding, Marked, WordStep, After;
    }
  }

  lemma {:induction false} StepMarks(w: Words, c: char, s: string, t: string)
    requires s == t + [c] && w == WordRun(NO_WORDS, t) && w.mode == After(PLAIN, t)
    requires w.expansion ==> w.buffer != ""
    ensures var v := WordRun(NO_WORDS, s);
            && v == WordStep(w, c)
            && (v.expansion ==> v.buffer != "")
            && (Marked(v) <==> Marked(w) || Expanding(s, |t|))
  {
    assert s[..|t|] == t && [c][1..] == "";
    RunConcat(NO_WORDS, t, [c]);
    assert WordRun(w, [c]) == WordStep(w, c);
    FlushKeepsMarks(w);
    hide WordRun, After;
  }

  /** The words of a text are marked for expansion exactly if one of its characters expands. */
  lemma {:induction false} DynamicIff(s: string)
    ensures Dynamic(Tokens(s)) <==> exists i :: 0 <= i < |s| && Expanding(s, i)
  {
    MarksSoFar(s);
    FlushKeepsMarks(WordRun(NO_WORDS, s));
  }

  lemma {:induction false} OperationsIff(segs: seq<Segment>)
    ensures Operations(segs).None? <==>
            exists k, i :: 0 <= k < |segs| && 0 <= i < |segs[k].text| && Expanding(segs[k].text, i)
  {
    if segs != [] {
      DynamicIff(segs[0].text);
      OperationsIff(segs[1..]);
      hide Expanding, Tokens;
      forall k | 0 < k < |segs| ensures segs[k] == segs[1..][k - 1] { }
      if k, i :| 0 <= k < |segs[1..]| && 0 <= i < |segs[1..][k].text| && Expanding(segs[1..][k].text, i) {
        assert segs[k + 1] == segs[1..][k];
      }
    }
  }

  /** The normalizer refuses a command exactly if one of its characters offends, or one of the
      characters of its segments expands. */
  lemma {:induction false} RefusedIff(command: string)
    ensures Normalized(command).None? <==>
            || (exists i :: 0 <= i < |command| && Offends(PLAIN, command, i))
            || (exists k, i :: 0 <= k < |Segments(command)| && 0 <= i < |Segments(command)[k].text|
                               && Expanding(Segments(command)[k].text, i))
  {
    SupportedIff(command);
    OperationsIff(Segments(command));
    hide Offends, Expanding, Supported, Operations, Segments;
  }
}
