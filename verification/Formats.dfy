/** Formats of identifiers and paths that several components check. */
module Formats {
  import opened Decimals
  import opened Sequences

  predicate Hex(c: char) { IsDigit(c) || 'a' <= c <= 'f' }

  predicate Digits(s: string) {
    s != [] && forall i :: 0 <= i < |s| ==> IsDigit(s[i])
  }

  predicate IdChar(i: nat, c: char) {
    if i in {8, 13, 18, 23} then c == '-'
    else if i == 14 then c == '4' || c == '7'
    else if i == 19 then c in {'8', '9', 'a', 'b'}
    else Hex(c)
  }

  /** A version 4 or version 7 UUID in lower case. */
  predicate IsId(s: string) {
    |s| == 36 && forall i :: 0 <= i < 36 ==> IdChar(i, s[i])
  }

  /** A version 4 UUID: what the agent itself issues. */
  predicate IsUuid(s: string) {
    IsId(s) && s[14] == '4'
  }

  predicate IsDigest(s: string) {
    |s| == 64 && forall i :: 0 <= i < 64 ==> Hex(s[i])
  }

  /** A full commit or object id of Git. */
  predicate IsSha(s: string) {
    |s| == 40 && forall k :: 0 <= k < 40 ==> Hex(s[k])
  }

  predicate IsIdentity(s: string) {
    exists k :: 0 <= k < |s| && s[k] == ':' && Digits(s[..k]) && Digits(s[k + 1..])
  }

  predicate IsRootId(s: string) {
    && 1 <= |s| <= 32
    && 'a' <= s[0] <= 'z'
    && forall i :: 1 <= i < |s| ==> 'a' <= s[i] <= 'z' || IsDigit(s[i]) || s[i] == '_' || s[i] == '-'
  }

  const PATH_LIMIT := 2048

  /** A relative path of ordinary segments, free of control characters, backslashes and colons. */
  predicate IsRelativePath(s: string) {
    && 1 <= |s| <= PATH_LIMIT
    && (forall k :: 0 <= k < |Segments(s)| ==> Segments(s)[k] !in {"", ".", ".."})
    && (forall k :: 0 <= k < |s| ==> s[k] != '\\' && s[k] != ':' && s[k] >= ' ' && s[k] != '\U{7f}')
  }

  /** The parts of a path between slashes. */
  function Segments(s: string): seq<string> {
    Split(s, '/')
  }

  function Split(s: string, mark: char): seq<string> {
    SplitFrom("", s, mark)
  }

  function SplitFrom(part: string, s: string, mark: char): seq<string>
    decreases |s|
  {
    if s == "" then [part]
    else if s[0] == mark then [part] + SplitFrom("", s[1..], mark)
    else SplitFrom(part + [s[0]], s[1..], mark)
  }

  // ----- the parts of a text, told from the text alone -----

  /** `x` stands in the text between two marks, or between a mark and an end of it. */
  predicate Between(s: string, mark: char, a: string, x: string, b: string) {
    && s == a + (x + b) && mark !in x
    && (a != "" ==> a[|a| - 1] == mark) && (b != "" ==> b[0] == mark)
  }

  ghost predicate IsPart(s: string, mark: char, x: string) {
    exists a, b :: Between(s, mark, a, x, b)
  }

  /** The first mark is no later than those around the part. */
  lemma {:induction false} MarksAround(s: string, mark: char, a: string, x: string, b: string)
    requires Between(s, mark, a, x, b)
    ensures a != "" ==> Position(s, mark) < |a|
    ensures b != "" ==> Position(s, mark) <= |a| + |x|
  {
    PositionFirst(s, mark);
    if a != "" { assert s[|a| - 1] == a[|a| - 1]; }
    if b != "" { assert s[|a| + |x|] == b[0]; }
  }

  lemma {:induction false} OnlyPart(s: string, mark: char, x: string)
    requires mark !in s
    ensures IsPart(s, mark, x) <==> x == s
  {
    assert Between(s, mark, "", s, "");
    PositionFirst(s, mark);
    forall a, b | Between(s, mark, a, x, b) ensures x == s { MarksAround(s, mark, a, x, b); }
  }

  lemma {:induction false} FirstPart(part: string, rest: string, mark: char, x: string)
    requires mark !in part
    ensures IsPart(part + ([mark] + rest), mark, x) <==> x == part || IsPart(rest, mark, x)
  {
    var s := part + ([mark] + rest);
    assert Between(s, mark, "", part, [mark] + rest);
    forall a, b | Between(rest, mark, a, x, b) ensures IsPart(s, mark, x) {
      var c := part + ([mark] + a);
      assert c + (x + b) == s;
      assert Between(s, mark, c, x, b);
    }
    forall a, b | Between(s, mark, a, x, b) ensures x == part || IsPart(rest, mark, x) {
      if a == "" {
        WholeFirstPart(part, rest, mark, x, b);
      } else {
        LaterPart(part, rest, mark, a, x, b);
      }
    }
  }

  lemma {:induction false} WholeFirstPart(part: string, rest: string, mark: char, x: string, b: string)
    requires mark !in part && Between(part + ([mark] + rest), mark, "", x, b)
    ensures x == part
  {
    var s := part + ([mark] + rest);
    assert s == x + b && mark in s;
    var c := if b == "" then "" else b[1..];
    assert b != "" ==> b == [mark] + c;
    if b != "" { CutAtMark(x, part, mark, c, rest); }
  }

  lemma {:induction false} LaterPart(part: string, rest: string, mark: char, a: string, x: string, b: string)
    requires mark !in part && a != "" && Between(part + ([mark] + rest), mark, a, x, b)
    ensures IsPart(rest, mark, x)
  {
    var s := part + ([mark] + rest);
    PositionAfter(part, mark, rest);
    MarksAround(s, mark, a, x, b);
    var c := a[|part| + 1..];
    assert rest == s[|part| + 1..];
    assert rest == c + (x + b);
    assert c != "" ==> c[|c| - 1] == a[|a| - 1];
    assert Between(rest, mark, c, x, b);
  }

  lemma {:induction false} PartsFrom(part: string, s: string, mark: char, x: string)
    requires mark !in part
    ensures x in SplitFrom(part, s, mark) <==> IsPart(part + s, mark, x)
    decreases |s|
  {
    hide IsPart;
    if s == "" {
      assert part + s == part;
      OnlyPart(part, mark, x);
    } else if s[0] == mark {
      PartsFrom("", s[1..], mark, x);
      assert "" + s[1..] == s[1..] && [mark] + s[1..] == s;
      FirstPart(part, s[1..], mark, x);
    } else {
      PartsFrom(part + [s[0]], s[1..], mark, x);
      assert (part + [s[0]]) + s[1..] == part + s;
    }
  }

  /** A relative path is accepted exactly if it is short enough and free of control characters,
      backslashes and colons, and nothing that stands in it between slashes is empty, `.` or `..`. */
  lemma {:induction false} RelativePathIff(s: string)
    ensures IsRelativePath(s) <==>
            && 1 <= |s| <= 2048
            && (forall k :: 0 <= k < |s| ==> s[k] != '\\' && s[k] != ':' && s[k] >= ' ' && s[k] != '\U{7f}')
            && forall a, x, b :: Between(s, '/', a, x, b) ==> x != "" && x != "." && x != ".."
  {
    forall x ensures x in Segments(s) <==> IsPart(s, '/', x) {
      PartsFrom("", s, '/', x);
      assert "" + s == s;
    }
    hide Split, Between;
    forall a, x, b | Between(s, '/', a, x, b) ensures IsPart(s, '/', x) { }
    if forall a, x, b :: Between(s, '/', a, x, b) ==> x != "" && x != "." && x != ".." {
      forall k | 0 <= k < |Segments(s)| ensures Segments(s)[k] !in {"", ".", ".."} {
        assert Segments(s)[k] in Segments(s);
      }
    }
  }

  // ----- identifiers, told from their characters -----

  lemma {:induction false} DigitsIff(s: string)
    ensures Digits(s) <==> s != "" && forall c :: c in s ==> '0' <= c <= '9'
  {
    forall k | 0 <= k < |s| ensures s[k] in s { }
  }

  predicate Hexadecimal(s: string) {
    forall c :: c in s ==> c in "0123456789abcdef"
  }

  lemma {:induction false} HexIff(c: char)
    ensures Hex(c) <==> c in "0123456789abcdef"
  {
    assert c in "0123456789abcdef" ==> '0' <= c <= '9' || 'a' <= c <= 'f';
    var digits := "0123456789abcdef";
    assert '0' <= c <= '9' ==> digits[(c - '0') as nat] == c;
    assert 'a' <= c <= 'f' ==> digits[(c - 'a') as nat + 10] == c;
  }

  lemma {:induction false} HexadecimalIff(s: string)
    ensures Hexadecimal(s) <==> forall k :: 0 <= k < |s| ==> Hex(s[k])
  {
    hide Hex;
    forall c ensures Hex(c) <==> c in "0123456789abcdef" { HexIff(c); }
    forall k | 0 <= k < |s| ensures s[k] in s { }
  }

  lemma {:induction false} DigestIff(s: string)
    ensures IsDigest(s) <==> |s| == 64 && Hexadecimal(s)
    ensures IsSha(s) <==> |s| == 40 && Hexadecimal(s)
  {
    hide Hex;
    HexadecimalIff(s);
  }

  /** Two numbers with a colon between them. */
  predicate TwoNumbers(s: string, a: string, b: string) {
    s == a + (":" + b) && Digits(a) && Digits(b)
  }

  lemma {:induction false} IdentityIff(s: string)
    ensures IsIdentity(s) <==> exists a, b :: TwoNumbers(s, a, b)
  {
    hide Digits;
    if IsIdentity(s) {
      var k :| 0 <= k < |s| && s[k] == ':' && Digits(s[..k]) && Digits(s[k + 1..]);
      assert TwoNumbers(s, s[..k], s[k + 1..]);
    }
    forall a, b | TwoNumbers(s, a, b) ensures IsIdentity(s) {
      TwoNumbersIdentify(s, a, b);
    }
  }

  lemma {:induction false} TwoNumbersIdentify(s: string, a: string, b: string)
    requires TwoNumbers(s, a, b)
    ensures IsIdentity(s)
  {
    hide Digits;
    var k := |a|;
    assert s[k] == ':' && s[..k] == a && s[k + 1..] == b;
  }

  /** A letter, and at most 31 letters, digits, underscores and hyphens, all in lower case. */
  lemma {:induction false} RootIdIff(s: string)
    ensures IsRootId(s) <==>
            exists first, rest ::
              && s == [first] + rest && 'a' <= first <= 'z' && |rest| < 32
              && forall c :: c in rest ==> 'a' <= c <= 'z' || '0' <= c <= '9' || c == '_' || c == '-'
  {
    if IsRootId(s) {
      var (first, rest) := (s[0], s[1..]);
      assert s == [first] + rest;
    }
    forall first, rest | && s == [first] + rest && 'a' <= first <= 'z' && |rest| < 32
                         && forall c :: c in rest ==> 'a' <= c <= 'z' || '0' <= c <= '9' || c == '_' || c == '-'
      ensures IsRootId(s)
    {
      forall i | 1 <= i < |s| ensures s[i] in rest { assert s[i] == rest[i - 1]; }
    }
  }

  /** Five groups of hexadecimal digits: the third begins with the version, the fourth with the variant. */
  predicate Grouped(s: string, a: string, b: string, c: string, d: string, e: string) {
    && s == a + "-" + b + "-" + c + "-" + d + "-" + e
    && |a| == 8 && |b| == |c| == |d| == 4 && |e| == 12
    && Hexadecimal(a) && Hexadecimal(b) && Hexadecimal(c) && Hexadecimal(d) && Hexadecimal(e)
  }

  lemma {:induction false} IdIff(s: string)
    ensures IsId(s) <==> exists a, b, c, d, e :: Grouped(s, a, b, c, d, e) && (c[0] == '4' || c[0] == '7') && d[0] in "89ab"
    ensures IsUuid(s) <==> exists a, b, c, d, e :: Grouped(s, a, b, c, d, e) && c[0] == '4' && d[0] in "89ab"
  {
    if IsId(s) {
      GroupsOf(s);
    }
    forall a, b, c, d, e | Grouped(s, a, b, c, d, e) && (c[0] == '4' || c[0] == '7') && d[0] in "89ab"
      ensures IsId(s) && s[14] == c[0]
    {
      GroupsAre(s, a, b, c, d, e);
    }
  }

  lemma {:induction false} GroupsOf(s: string)
    requires IsId(s)
    ensures var (a, b, c, d, e) := (s[..8], s[9..13], s[14..18], s[19..23], s[24..]);
            Grouped(s, a, b, c, d, e) && c[0] == s[14] && (c[0] == '4' || c[0] == '7') && d[0] in "89ab"
  {
    hide Hex, Hexadecimal;
    var (a, b, c, d, e) := (s[..8], s[9..13], s[14..18], s[19..23], s[24..]);
    assert s[8] == '-' && s[13] == '-' && s[18] == '-' && s[23] == '-';
    assert IdChar(14, s[14]) && IdChar(19, s[19]);
    assert s == a + "-" + b + "-" + c + "-" + d + "-" + e;
    VersionDigits();
    forall k | 0 <= k < 36 && k !in {8, 13, 18, 23} ensures Hex(s[k]) { assert IdChar(k, s[k]); }
    HexadecimalIff(a);
    HexadecimalIff(b);
    HexadecimalIff(c);
    HexadecimalIff(d);
    HexadecimalIff(e);
  }

  lemma {:induction false} VersionDigits()
    ensures Hex('4') && Hex('7') && Hex('8') && Hex('9') && Hex('a') && Hex('b')
    ensures forall x: char :: x in {'8', '9', 'a', 'b'} <==> x in "89ab"
  {
    forall x: char ensures x in {'8', '9', 'a', 'b'} <==> x in "89ab" {
      var t := "89ab";
      assert t[0] == '8' && t[1] == '9' && t[2] == 'a' && t[3] == 'b';
    }
  }

  lemma {:induction false} GroupsAre(s: string, a: string, b: string, c: string, d: string, e: string)
    requires Grouped(s, a, b, c, d, e) && (c[0] == '4' || c[0] == '7') && d[0] in "89ab"
    ensures IsId(s) && s[14] == c[0]
  {
    hide Hex, Hexadecimal;
    VersionDigits();
    HexadecimalIff(a);
    HexadecimalIff(b);
    HexadecimalIff(c);
    HexadecimalIff(d);
    HexadecimalIff(e);
    forall i | 0 <= i < 36 ensures IdChar(i, s[i]) {
      if i < 8 { assert s[i] == a[i]; }
      else if 9 <= i < 13 { assert s[i] == b[i - 9]; }
      else if 14 <= i < 18 { assert s[i] == c[i - 14]; }
      else if 19 <= i < 23 { assert s[i] == d[i - 19]; }
      else if 24 <= i { assert s[i] == e[i - 24]; }
    }
  }
}
