/** JSON strings as `JSON.stringify` prints them (section 7 of RFC 8259), and why printed values can
    be told apart. */
module Json {
  import opened Sequences
  import Utf8

  function HexDigit(v: nat): char
    requires v < 16
  {
    if v < 10 then '0' + v as char else 'a' + (v - 10) as char
  }

  function EscapeChar(c: char): string {
    if c == '\"' || c == '\\' then ['\\', c]
    else if c >= ' ' then [c]
    else if c == '\U{8}' then "\\b"
    else if c == '\t' then "\\t"
    else if c == '\n' then "\\n"
    else if c == '\U{c}' then "\\f"
    else if c == '\r' then "\\r"
    else ['\\', 'u', '0', '0', HexDigit(c as nat / 16), HexDigit(c as nat % 16)]
  }

  function Escaped(s: string): string {
    if s == "" then "" else EscapeChar(s[0]) + Escaped(s[1..])
  }

  function Quoted(s: string): string {
    "\"" + (Escaped(s) + "\"")
  }

  /** The escapes of control characters, spelled out. */
  lemma {:induction false} ControlsSpelled()
    ensures forall v: nat :: v < 16 ==> HexDigit(v) == "0123456789abcdef"[v]
    ensures EscapeChar('"') == "\\\"" && EscapeChar('\\') == "\\\\"
    ensures EscapeChar('\U{0}') == "\\u0000" && EscapeChar('\U{8}') == "\\b" && EscapeChar('\t') == "\\t" && EscapeChar('\n') == "\\n"
    ensures EscapeChar('\U{b}') == "\\u000b" && EscapeChar('\U{c}') == "\\f" && EscapeChar('\r') == "\\r" && EscapeChar('\U{1f}') == "\\u001f"
    ensures forall c :: c >= ' ' && c != '"' && c != '\\' ==> EscapeChar(c) == [c]
  {
    assert forall v: nat :: v < 10 ==> "0123456789abcdef"[v] == '0' + v as char;
    assert forall v: nat :: 10 <= v < 16 ==> "0123456789abcdef"[v] == 'a' + (v - 10) as char;
  }

  // ----- telling printed strings apart -----

  lemma {:induction false} HexDigitInjective(v: nat, w: nat)
    requires v < 16 && w < 16 && HexDigit(v) == HexDigit(w)
    ensures v == w
  {
  }

  /** The first two characters of an escape say how long it is. */
  lemma {:induction false} EscapesOfOneLength(c: char, d: char, x: string, y: string)
    requires EscapeChar(c) + x == EscapeChar(d) + y
    ensures |EscapeChar(c)| == |EscapeChar(d)|
  {
    var t := EscapeChar(c) + x;
    assert t[0] == EscapeChar(c)[0] && t[0] == EscapeChar(d)[0];
    if |EscapeChar(c)| > 1 && |EscapeChar(d)| > 1 {
      assert t[1] == EscapeChar(c)[1] && t[1] == EscapeChar(d)[1];
    }
  }

  lemma {:induction false} EscapeCharInjective(c: char, d: char)
    requires EscapeChar(c) == EscapeChar(d)
    ensures c == d
  {
    if |EscapeChar(c)| == 6 {
      assert EscapeChar(c)[4] == HexDigit(c as nat / 16) && EscapeChar(c)[5] == HexDigit(c as nat % 16);
      assert EscapeChar(d)[4] == HexDigit(d as nat / 16) && EscapeChar(d)[5] == HexDigit(d as nat % 16);
      HexDigitInjective(c as nat / 16, d as nat / 16);
      HexDigitInjective(c as nat % 16, d as nat % 16);
    }
  }

  lemma {:induction false} EscapeCut(c: char, d: char, x: string, y: string)
    requires EscapeChar(c) + x == EscapeChar(d) + y
    ensures c == d && x == y
  {
    EscapesOfOneLength(c, d, x, y);
    Cut(EscapeChar(c), EscapeChar(d), x, y);
    EscapeCharInjective(c, d);
  }

  lemma {:induction false} EscapedFront(s: string, x: string)
    ensures var t := Escaped(s) + ("\"" + x); t != "" && (t[0] == '\"' <==> s == "")
  {
    if s != "" { assert (Escaped(s) + ("\"" + x))[0] == EscapeChar(s[0])[0]; }
  }

  lemma {:induction false} EscapedCut(a: string, b: string, x: string, y: string)
    requires Escaped(a) + ("\"" + x) == Escaped(b) + ("\"" + y)
    ensures a == b && x == y
  {
    hide EscapeChar;
    EscapedFront(a, x);
    EscapedFront(b, y);
    if a == "" {
      Cut(Escaped(a), Escaped(b), "\"" + x, "\"" + y);
      Cut("\"", "\"", x, y);
    } else {
      Associates(EscapeChar(a[0]), Escaped(a[1..]), "\"" + x);
      Associates(EscapeChar(b[0]), Escaped(b[1..]), "\"" + y);
      EscapeCut(a[0], b[0], Escaped(a[1..]) + ("\"" + x), Escaped(b[1..]) + ("\"" + y));
      EscapedCut(a[1..], b[1..], x, y);
      SameList(a, b);
    }
  }

  /** A printed string ends where it ends: nothing that follows can change what it says. */
  lemma {:induction false} QuotedCut(a: string, b: string, x: string, y: string)
    requires Quoted(a) + x == Quoted(b) + y
    ensures a == b && x == y
  {
    hide Escaped;
    Associates("\"", Escaped(a) + "\"", x);
    Associates("\"", Escaped(b) + "\"", y);
    Cut("\"", "\"", (Escaped(a) + "\"") + x, (Escaped(b) + "\"") + y);
    Associates(Escaped(a), "\"", x);
    Associates(Escaped(b), "\"", y);
    EscapedCut(a, b, x, y);
  }

  // ----- sizes -----

  predicate PlainChar(c: char) {
    ' ' <= c < '\U{80}' && c != '\"' && c != '\\'
  }

  /** Characters that are one byte long and need no escape. */
  predicate Plain(s: string) {
    s != "" ==> PlainChar(s[0]) && Plain(s[1..])
  }

  lemma {:induction false} PlainTogether(a: string, b: string)
    requires Plain(a) && Plain(b)
    ensures Plain(a + b)
  {
    if a == "" {
      assert a + b == b;
    } else {
      assert (a + b)[1..] == a[1..] + b;
      PlainTogether(a[1..], b);
    }
  }

  lemma {:induction false} PlainUnchanged(s: string)
    requires Plain(s)
    ensures Escaped(s) == s && Utf8.Size(s) == |s|
  {
    if s != "" {
      PlainUnchanged(s[1..]);
      HeadAndTail(s);
    }
  }

  lemma {:induction false} TwoSizes(a: char, b: char)
    requires a < '\U{80}' && b < '\U{80}'
    ensures Utf8.Size([a, b]) == 2
  {
    assert [a, b][1..] == [b] && [b][1..] == "";
    assert Utf8.Size([b]) == 1;
  }

  lemma {:induction false} EscapeCharSize(c: char)
    ensures Utf8.Size(EscapeChar(c)) <= 6
  {
    var e := EscapeChar(c);
    if |e| == 1 {
      assert e[1..] == "";
    } else if |e| == 2 {
      TwoSizes(e[0], e[1]);
      assert e == [e[0], e[1]];
    } else {
      TwoSizes('\\', 'u');
      TwoSizes('0', '0');
      TwoSizes(e[4], e[5]);
      Utf8.SizeSplit(['0', '0'], [e[4], e[5]]);
      Utf8.SizeSplit(['\\', 'u'], ['0', '0'] + [e[4], e[5]]);
      assert e == ['\\', 'u'] + (['0', '0'] + [e[4], e[5]]);
    }
  }

  lemma {:induction false} EscapedSize(s: string)
    ensures Utf8.Size(Escaped(s)) <= 6 * |s|
  {
    if s != "" {
      EscapeCharSize(s[0]);
      EscapedSize(s[1..]);
      Utf8.SizeSplit(EscapeChar(s[0]), Escaped(s[1..]));
      hide EscapeChar;
    }
  }

  lemma {:induction false} QuotedSize(s: string)
    ensures Utf8.Size(Quoted(s)) == 2 + Utf8.Size(Escaped(s)) <= 2 + 6 * |s|
  {
    EscapedSize(s);
    Utf8.SizeSplit("\"", Escaped(s) + "\"");
    Utf8.SizeSplit(Escaped(s), "\"");
    hide Escaped;
  }

  lemma {:induction false} PlainQuotedSize(s: string)
    requires Plain(s)
    ensures Utf8.Size(Quoted(s)) == 2 + |s|
  {
    PlainUnchanged(s);
    QuotedSize(s);
  }

  // ----- members of an object -----

  /** One member with a string value: `key` brings its own punctuation. */
  function Member(key: string, value: string, rest: string): string {
    key + (Quoted(value) + rest)
  }

  lemma {:induction false} MemberCut(key: string, a: string, b: string, x: string, y: string)
    requires Member(key, a, x) == Member(key, b, y)
    ensures a == b && x == y
  {
    hide Quoted;
    Cut(key, key, Quoted(a) + x, Quoted(b) + y);
    QuotedCut(a, b, x, y);
  }

  lemma {:induction false} MemberSize(key: string, value: string, rest: string)
    ensures Utf8.Size(Member(key, value, rest)) <= 4 * |key| + 2 + 6 * |value| + Utf8.Size(rest)
    ensures Plain(value) ==> Utf8.Size(Member(key, value, rest)) <= 4 * |key| + 2 + |value| + Utf8.Size(rest)
  {
    Utf8.SizeSplit(key, Quoted(value) + rest);
    Utf8.SizeSplit(Quoted(value), rest);
    Utf8.SizeBound(key);
    QuotedSize(value);
    if Plain(value) { PlainQuotedSize(value); }
    hide Quoted, Plain, Escaped;
  }
}
