/** UTF-8 (section 3 of RFC 3629): the encoder, and a strict decoder that accepts exactly its outputs. */
module Utf8 {
  import opened Octets
  import opened Sequences
  import opened Wrappers

  type Low = v: int | 0 <= v < 0x40

  function Tail(v: Low): Byte {
    0x80 + v
  }

  predicate IsTail(b: Byte) {
    0x80 <= b < 0xC0
  }

  /** One to four bytes for one character. */
  function Char(c: char): Bytes {
    var u := c as int;
    if u < 0x80 then [u]
    else if u < 0x800 then [0xC0 + u / 0x40, Tail(u % 0x40)]
    else if u < 0x1_0000 then [0xE0 + u / 0x1000, Tail(u / 0x40 % 0x40), Tail(u % 0x40)]
    else [0xF0 + u / 0x4_0000, Tail(u / 0x1000 % 0x40), Tail(u / 0x40 % 0x40), Tail(u % 0x40)]
  }

  function Encode(s: string): Bytes {
    if s == "" then [] else Char(s[0]) + Encode(s[1..])
  }

  function CharSize(c: char): nat {
    if c < '\U{80}' then 1 else if c < '\U{800}' then 2 else if c < '\U{10000}' then 3 else 4
  }

  function Size(s: string): nat {
    if s == "" then 0 else CharSize(s[0]) + Size(s[1..])
  }

  /** A Unicode scalar value of at least `least`: shortest form only, no surrogates. */
  function Scalar(u: int, least: int): Option<char> {
    if least <= u < 0x11_0000 && !(0xD800 <= u < 0xE000) && u >= 0 then Some(u as char) else None
  }

  /** The character at the front of a text, if there is one in shortest form. */
  function Front(b: Bytes): Option<char>
    requires b != []
  {
    if b[0] < 0x80 then Some(b[0] as char)
    else if b[0] < 0xC0 then None
    else if b[0] < 0xE0 then
      if |b| < 2 || !IsTail(b[1]) then None else Scalar((b[0] - 0xC0) as int * 0x40 + (b[1] - 0x80) as int, 0x80)
    else if b[0] < 0xF0 then
      if |b| < 3 || !IsTail(b[1]) || !IsTail(b[2]) then None
      else Scalar((b[0] - 0xE0) as int * 0x1000 + (b[1] - 0x80) as int * 0x40 + (b[2] - 0x80) as int, 0x800)
    else
      if |b| < 4 || !IsTail(b[1]) || !IsTail(b[2]) || !IsTail(b[3]) then None
      else Scalar((b[0] - 0xF0) as int * 0x4_0000 + (b[1] - 0x80) as int * 0x1000
                  + (b[2] - 0x80) as int * 0x40 + (b[3] - 0x80) as int, 0x1_0000)
  }

  function Decode(b: Bytes): Option<string>
    decreases |b|
  {
    if b == [] then Some("")
    else match Front(b)
      case None => None
      case Some(c) =>
        if CharSize(c) > |b| then None
        else match Decode(b[CharSize(c)..])
          case None => None
          case Some(rest) => Some([c] + rest)
  }

  lemma {:induction false} CharLength(c: char)
    ensures |Char(c)| == CharSize(c)
  {
  }

  lemma {:induction false} EncodeLength(s: string)
    ensures |Encode(s)| == Size(s)
  {
    if s != "" {
      CharLength(s[0]);
      EncodeLength(s[1..]);
    }
  }

  /** Dividing twice by 64 is dividing by 4096, and a third time by 262144. */
  lemma {:induction false} Quotients(u: nat)
    ensures u / 0x40 / 0x40 == u / 0x1000 && u / 0x1000 / 0x40 == u / 0x4_0000
  {
    var a := u / 0x40;
    var b := a / 0x40;
    assert 0x40 * a <= u < 0x40 * a + 0x40;
    assert 0x40 * b <= a < 0x40 * b + 0x40;
    assert 0x1000 * b <= u < 0x1000 * b + 0x1000;
    var c := b / 0x40;
    assert 0x40 * c <= b < 0x40 * c + 0x40;
    assert 0x4_0000 * c <= u < 0x4_0000 * c + 0x4_0000;
  }

  lemma {:induction false} Joined(u: nat)
    ensures u == u / 0x40 * 0x40 + u % 0x40
    ensures u == u / 0x1000 * 0x1000 + u / 0x40 % 0x40 * 0x40 + u % 0x40
    ensures u == u / 0x4_0000 * 0x4_0000 + u / 0x1000 % 0x40 * 0x1000 + u / 0x40 % 0x40 * 0x40 + u % 0x40
  {
    Quotients(u);
    var (a, b, c) := (u / 0x40, u / 0x1000, u / 0x4_0000);
    assert u == 0x40 * a + u % 0x40;
    assert a == 0x40 * b + a % 0x40;
    assert b == 0x40 * c + b % 0x40;
  }

  lemma {:induction false} FrontOfChar(c: char, rest: Bytes)
    ensures Front(Char(c) + rest) == Some(c)
  {
    var u := c as int;
    Joined(u);
    var b := Char(c) + rest;
    if u < 0x80 {
      assert b[0] == u;
    } else if u < 0x800 {
      assert b[0] == 0xC0 + u / 0x40 && b[1] == Tail(u % 0x40);
    } else if u < 0x1_0000 {
      assert b[0] == 0xE0 + u / 0x1000 && b[1] == Tail(u / 0x40 % 0x40) && b[2] == Tail(u % 0x40);
    } else {
      assert b[0] == 0xF0 + u / 0x4_0000 && b[1] == Tail(u / 0x1000 % 0x40);
      assert b[2] == Tail(u / 0x40 % 0x40) && b[3] == Tail(u % 0x40);
    }
  }

  lemma {:induction false} DecodeUndoesEncode(s: string)
    ensures Decode(Encode(s)) == Some(s)
  {
    hide Front, Char;
    if s != "" {
      var (first, rest) := (Char(s[0]), Encode(s[1..]));
      FrontOfChar(s[0], rest);
      CharLength(s[0]);
      DecodeUndoesEncode(s[1..]);
      assert first + rest != [] && (first + rest)[CharSize(s[0])..] == rest;
      HeadAndTail(s);
    }
  }

  lemma {:induction false} EncodeInjective(s: string, t: string)
    requires Encode(s) == Encode(t)
    ensures s == t
  {
    DecodeUndoesEncode(s);
    DecodeUndoesEncode(t);
  }

  /** A NUL byte only comes from a NUL character. */
  lemma {:induction false} NoNul(s: string)
    requires '\0' !in s
    ensures forall k :: 0 <= k < |Encode(s)| ==> Encode(s)[k] != 0
  {
    if s != "" {
      HeadAndTail(s);
      NoNul(s[1..]);
      assert s[0] in s;
      CharNoNul(s[0]);
      hide Char;
    }
  }

  lemma {:induction false} CharNoNul(c: char)
    requires c != '\0'
    ensures forall k :: 0 <= k < |Char(c)| ==> Char(c)[k] != 0
  {
  }

  // ----- sizes -----

  lemma {:induction false} SizeSplit(a: string, b: string)
    ensures Size(a + b) == Size(a) + Size(b)
  {
    if a == "" {
      assert a + b == b;
    } else {
      assert (a + b)[1..] == a[1..] + b;
      SizeSplit(a[1..], b);
    }
  }

  lemma {:induction false} SizeBound(s: string)
    ensures Size(s) <= 4 * |s|
  {
    if s != "" { SizeBound(s[1..]); }
  }

  // ----- the decoder accepts nothing else -----

  lemma {:induction false} LastPart(a: nat, b: nat)
    requires b < 0x40
    ensures (a * 0x40 + b) / 0x40 == a && (a * 0x40 + b) % 0x40 == b
  {
  }

  lemma {:induction false} TwoParts(x: nat, y: nat)
    requires y < 0x40
    ensures var u := x * 0x40 + y; u / 0x40 == x && u % 0x40 == y
  {
    LastPart(x, y);
  }

  lemma {:induction false} ThreeParts(x: nat, y: nat, z: nat)
    requires y < 0x40 && z < 0x40
    ensures var u := x * 0x1000 + y * 0x40 + z; u / 0x1000 == x && u / 0x40 % 0x40 == y && u % 0x40 == z
  {
    var u := (x * 0x40 + y) * 0x40 + z;
    LastPart(x * 0x40 + y, z);
    LastPart(x, y);
    Quotients(u);
    assert u == x * 0x1000 + y * 0x40 + z;
  }

  lemma {:induction false} FourParts(w: nat, x: nat, y: nat, z: nat)
    requires x < 0x40 && y < 0x40 && z < 0x40
    ensures var u := w * 0x4_0000 + x * 0x1000 + y * 0x40 + z;
            u / 0x4_0000 == w && u / 0x1000 % 0x40 == x && u / 0x40 % 0x40 == y && u % 0x40 == z
  {
    var u := ((w * 0x40 + x) * 0x40 + y) * 0x40 + z;
    LastPart((w * 0x40 + x) * 0x40 + y, z);
    LastPart(w * 0x40 + x, y);
    LastPart(w, x);
    Quotients(u);
    assert u == w * 0x4_0000 + x * 0x1000 + y * 0x40 + z;
  }

  lemma {:induction false} CharOfFront(b: Bytes)
    requires b != [] && Front(b).Some?
    ensures CharSize(Front(b).value) <= |b| && b[..CharSize(Front(b).value)] == Char(Front(b).value)
  {
    if b[0] < 0x80 {
      assert b[..1] == [b[0]];
    } else if b[0] < 0xE0 {
      TwoParts(b[0] - 0xC0, b[1] - 0x80);
      assert b[..2] == [b[0], b[1]];
    } else if b[0] < 0xF0 {
      ThreeParts(b[0] - 0xE0, b[1] - 0x80, b[2] - 0x80);
      assert b[..3] == [b[0], b[1], b[2]];
    } else {
      FourParts(b[0] - 0xF0, b[1] - 0x80, b[2] - 0x80, b[3] - 0x80);
      assert b[..4] == [b[0], b[1], b[2], b[3]];
    }
  }

  lemma {:induction false} EncodeUndoesDecode(b: Bytes)
    requires Decode(b).Some?
    ensures Encode(Decode(b).value) == b
    decreases |b|
  {
    hide Front, Char;
    if b != [] {
      var c := Front(b).value;
      CharOfFront(b);
      EncodeUndoesDecode(b[CharSize(c)..]);
      var rest := Decode(b[CharSize(c)..]).value;
      assert ([c] + rest)[1..] == rest;
      assert b == b[..CharSize(c)] + b[CharSize(c)..];
      }
  }

  /** The strict decoder accepts exactly the encoder's outputs, and inverts them. */
  lemma {:induction false} DecodesIffEncoded(b: Bytes, s: string)
    ensures Decode(b) == Some(s) <==> b == Encode(s)
  {
    DecodeUndoesEncode(s);
    if Decode(b) == Some(s) { EncodeUndoesDecode(b); }
  }
}
