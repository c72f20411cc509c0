/** The base64 encoder of the metadata helper, against section 4 of RFC 4648: its loop, the function
    it computes, and a strict decoder that accepts exactly what the encoder produces. */
module Base64 {
  import opened Octets
  import opened Wrappers

  type Sextet = v: int | 0 <= v < 64

  const PAD := '='

  /** Table 1 of RFC 4648. */
  function Letter(v: Sextet): char {
    if v < 26 then 'A' + v as char
    else if v < 52 then 'a' + (v - 26) as char
    else if v < 62 then '0' + (v - 52) as char
    else if v == 62 then '+'
    else '/'
  }

  function Value(c: char): Option<Sextet> {
    if 'A' <= c <= 'Z' then Some(c as int - 'A' as int)
    else if 'a' <= c <= 'z' then Some(c as int - 'a' as int + 26)
    else if '0' <= c <= '9' then Some(c as int - '0' as int + 52)
    else if c == '+' then Some(62)
    else if c == '/' then Some(63)
    else None
  }

  function Group(x: Byte, y: Byte, z: Byte): nat {
    x as int * 0x1_0000 + y as int * 0x100 + z as int
  }

  /** The six bits of a group from `weight` up. */
  function Digit(group: nat, weight: nat): char
    requires weight > 0
  {
    Letter(group / weight % 64)
  }

  /** Three bytes make four characters; one or two bytes at the end are padded. */
  function Encode(b: Bytes): string
    decreases |b|
  {
    if |b| == 0 then ""
    else if |b| == 1 then
      var g := Group(b[0], 0, 0);
      [Digit(g, 0x4_0000), Digit(g, 0x1000), PAD, PAD]
    else if |b| == 2 then
      var g := Group(b[0], b[1], 0);
      [Digit(g, 0x4_0000), Digit(g, 0x1000), Digit(g, 0x40), PAD]
    else
      Quad(b[0], b[1], b[2]) + Encode(b[3..])
  }

  function Quad(x: Byte, y: Byte, z: Byte): string {
    var g := Group(x, y, z);
    [Digit(g, 0x4_0000), Digit(g, 0x1000), Digit(g, 0x40), Digit(g, 1)]
  }

  // ----- a strict decoder -----

  /** The 24 bits of four letters. */
  function Bits(a: Sextet, b: Sextet, c: Sextet, d: Sextet): nat {
    a as int * 0x4_0000 + b as int * 0x1000 + c as int * 0x40 + d as int
  }

  /** Refuses foreign characters, bad lengths, misplaced padding and padding bits that are not zero. */
  function Decode(s: string): Option<Bytes>
    decreases |s|
  {
    if |s| == 0 then Some([])
    else if |s| < 4 || Value(s[0]).None? || Value(s[1]).None? then None
    else
      var (a, b) := (Value(s[0]).value, Value(s[1]).value);
      if |s| == 4 && s[2] == PAD && s[3] == PAD then
        if b % 16 == 0 then Some([Bits(a, b, 0, 0) / 0x1_0000]) else None
      else if Value(s[2]).None? then None
      else
        var c := Value(s[2]).value;
        if |s| == 4 && s[3] == PAD then
          if c % 4 == 0 then Some([Bits(a, b, c, 0) / 0x1_0000, Bits(a, b, c, 0) / 0x100 % 0x100]) else None
        else if Value(s[3]).None? then None
        else
          var g := Bits(a, b, c, Value(s[3]).value);
          match Decode(s[4..])
          case None => None
          case Some(rest) => Some([g / 0x1_0000, g / 0x100 % 0x100, g % 0x100] + rest)
  }

  // ----- arithmetic of one group -----

  lemma {:induction false} LetterValue(v: Sextet)
    ensures Value(Letter(v)) == Some(v) && Letter(v) != PAD
  {
  }

  lemma {:induction false} ValueLetter(c: char)
    requires Value(c).Some?
    ensures Letter(Value(c).value) == c
  {
  }

  /** Dividing twice by 64 is dividing by 4096, and a third time by 262144. */
  lemma {:induction false} Quotients(g: nat)
    ensures g / 0x40 / 0x40 == g / 0x1000 && g / 0x1000 / 0x40 == g / 0x4_0000
  {
    var a := g / 0x40;
    var b := a / 0x40;
    assert 0x40 * a <= g < 0x40 * a + 0x40;
    assert 0x40 * b <= a < 0x40 * b + 0x40;
    assert 0x1000 * b <= g < 0x1000 * b + 0x1000;
    var c := b / 0x40;
    assert 0x40 * c <= b < 0x40 * c + 0x40;
    assert 0x4_0000 * c <= g < 0x4_0000 * c + 0x4_0000;
  }

  lemma {:induction false} ByteQuotients(g: nat)
    ensures g / 0x100 / 0x100 == g / 0x1_0000
  {
    var a := g / 0x100;
    var b := a / 0x100;
    assert 0x100 * a <= g < 0x100 * a + 0x100;
    assert 0x100 * b <= a < 0x100 * b + 0x100;
    assert 0x1_0000 * b <= g < 0x1_0000 * b + 0x1_0000;
  }

  /** Splitting a group into sextets and joining them again. */
  lemma {:induction false} SextetsOfGroup(g: nat)
    requires g < 0x100_0000
    ensures Bits(g / 0x4_0000 % 64, g / 0x1000 % 64, g / 0x40 % 64, g % 64) == g
  {
    Quotients(g);
    var (a, b, c) := (g / 0x40, g / 0x1000, g / 0x4_0000);
    assert g == 0x40 * a + g % 64;
    assert a == 0x40 * b + a % 64;
    assert b == 0x40 * c + b % 64;
    assert c % 64 == c;
  }

  lemma {:induction false} BytesOfGroup(x: Byte, y: Byte, z: Byte)
    ensures var g := Group(x, y, z);
            g < 0x100_0000 && g / 0x1_0000 == x && g / 0x100 % 0x100 == y && g % 0x100 == z
  {
    var g := Group(x, y, z);
    var a := x as int * 0x100 + y as int;
    assert g == 0x100 * a + z as int;
    assert g / 0x100 == a && g % 0x100 == z as int;
    assert a / 0x100 == x as int && a % 0x100 == y as int;
    ByteQuotients(g);
  }

  lemma {:induction false} SextetsOfBits(a: Sextet, b: Sextet, c: Sextet, d: Sextet)
    ensures var g := Bits(a, b, c, d);
            && g < 0x100_0000
            && g / 0x4_0000 % 64 == a && g / 0x1000 % 64 == b && g / 0x40 % 64 == c && g % 64 == d
  {
    var g := Bits(a, b, c, d);
    var p := a as int * 0x40 + b as int;
    var q := p * 0x40 + c as int;
    assert g == 0x40 * q + d as int;
    assert g / 0x40 == q && g % 64 == d as int;
    assert q / 0x40 == p && q % 64 == c as int;
    assert p / 0x40 == a as int && p % 64 == b as int;
    Quotients(g);
  }

  lemma {:induction false} GroupOfBytes(g: nat)
    requires g < 0x100_0000
    ensures Group(g / 0x1_0000, g / 0x100 % 0x100, g % 0x100) == g
  {
    ByteQuotients(g);
    var (h, k) := (g / 0x100, g / 0x1_0000);
    assert g == 0x100 * h + g % 0x100;
    assert h == 0x100 * k + h % 0x100;
  }

  lemma {:induction false} Thirds(n: nat)
    ensures n >= 3 ==> (n + 2) / 3 * 4 == (n - 1) / 3 * 4 + 4
    ensures n == 0 ==> (n + 2) / 3 * 4 == 0
    ensures 1 <= n <= 2 ==> (n + 2) / 3 * 4 == 4
  {
  }

  lemma {:induction false} EncodeGrows(b: Bytes)
    ensures |b| == 0 ==> |Encode(b)| == 0
    ensures 1 <= |b| <= 2 ==> |Encode(b)| == 4
    ensures |b| >= 3 ==> |Encode(b)| == |Encode(b[3..])| + 4
  {
    hide Digit, Group;
  }

  lemma {:induction false} EncodeLength(b: Bytes)
    ensures |Encode(b)| == (|b| + 2) / 3 * 4
    decreases |b|
  {
    EncodeGrows(b);
    Thirds(|b|);
    hide Encode;
    if |b| >= 3 {
      EncodeLength(b[3..]);
    }
  }

  // ----- decoding undoes encoding -----

  /** The four letters of a group, and their values. */
  lemma {:induction false} QuadValues(g: nat)
    requires g < 0x100_0000
    ensures Value(Digit(g, 0x4_0000)) == Some(g / 0x4_0000 % 64) && Value(Digit(g, 0x1000)) == Some(g / 0x1000 % 64)
    ensures Value(Digit(g, 0x40)) == Some(g / 0x40 % 64) && Value(Digit(g, 1)) == Some(g % 64)
    ensures Digit(g, 0x40) != PAD && Digit(g, 1) != PAD
  {
    LetterValue(g / 0x4_0000 % 64);
    LetterValue(g / 0x1000 % 64);
    LetterValue(g / 0x40 % 64);
    LetterValue(g % 64);
  }

  /** A full group decodes to its three bytes, whatever follows. */
  lemma {:induction false} QuadDecodes(x: Byte, y: Byte, z: Byte, rest: string)
    ensures Decode(Quad(x, y, z) + rest) == if Decode(rest).None? then None else Some([x, y, z] + Decode(rest).value)
  {
    var g := Group(x, y, z);
    var s := Quad(x, y, z) + rest;
    BytesOfGroup(x, y, z);
    QuadValues(g);
    SextetsOfGroup(g);
    assert s[0] == Digit(g, 0x4_0000) && s[1] == Digit(g, 0x1000) && s[2] == Digit(g, 0x40) && s[3] == Digit(g, 1);
    assert s[4..] == rest;
    hide Group, Digit, Value, Bits;
  }

  lemma {:induction false} DecodeUndoesEncode(b: Bytes)
    ensures Decode(Encode(b)) == Some(b)
    decreases |b|
  {
    if |b| >= 3 {
      DecodeUndoesEncode(b[3..]);
      QuadDecodes(b[0], b[1], b[2], Encode(b[3..]));
      assert b == [b[0], b[1], b[2]] + b[3..];
    } else if |b| == 2 {
      TwoBytes(b[0], b[1]);
      assert b == [b[0], b[1]];
    } else if |b| == 1 {
      OneByte(b[0]);
      assert b == [b[0]];
    }
  }

  lemma {:induction false} OneByteBits(x: Byte)
    ensures var g := Group(x, 0, 0);
            g / 0x40 % 64 == 0 && g % 64 == 0 && g / 0x1000 % 64 % 16 == 0
  {
    var g := Group(x, 0, 0);
    var a := x as int * 16;
    assert g == 0x40 * (0x40 * a);
    assert g / 0x40 == 0x40 * a && g % 64 == 0;
    assert g / 0x40 / 0x40 == a && 0x40 * a % 64 == 0;
    Quotients(g);
    SixteensOf(x);
  }

  lemma {:induction false} SixteensOf(x: Byte)
    ensures x as int * 16 % 64 % 16 == 0
  {
    var k := x as int / 4;
    var r := x as int % 4;
    assert x as int * 16 == 64 * k + 16 * r;
    assert (64 * k + 16 * r) % 64 == 16 * r;
  }

  lemma {:induction false} OneByte(x: Byte)
    ensures Decode(Encode([x])) == Some([x])
  {
    hide Digit, Value, Bits, Group, Letter;
    BytesOfGroup(x, 0, 0);
    QuadValues(Group(x, 0, 0));
    SextetsOfGroup(Group(x, 0, 0));
    OneByteBits(x);
  }

  lemma {:induction false} TwoBytesBits(x: Byte, y: Byte)
    ensures var g := Group(x, y, 0);
            g % 64 == 0 && g / 0x40 % 64 % 4 == 0
  {
    var g := Group(x, y, 0);
    var a := x as int * 0x100 + y as int;
    assert g == 0x40 * (4 * a);
    assert g / 0x40 == 4 * a && g % 64 == 0;
    FoursOf(a);
  }

  lemma {:induction false} FoursOf(a: nat)
    ensures 4 * a % 64 % 4 == 0
  {
    var k := a / 16;
    var r := a % 16;
    assert 4 * a == 64 * k + 4 * r;
    assert (64 * k + 4 * r) % 64 == 4 * r;
  }

  lemma {:induction false} TwoBytes(x: Byte, y: Byte)
    ensures Decode(Encode([x, y])) == Some([x, y])
  {
    hide Digit, Value, Bits, Group, Letter;
    BytesOfGroup(x, y, 0);
    QuadValues(Group(x, y, 0));
    SextetsOfGroup(Group(x, y, 0));
    TwoBytesBits(x, y);
  }

  // ----- the decoder accepts nothing else -----

  lemma {:induction false} DecodedTail(s: string)
    requires |s| >= 4 && Value(s[0]).Some? && Value(s[1]).Some? && Value(s[2]).Some? && Value(s[3]).Some?
    ensures var g := Bits(Value(s[0]).value, Value(s[1]).value, Value(s[2]).value, Value(s[3]).value);
            s == Quad(g / 0x1_0000, g / 0x100 % 0x100, g % 0x100) + s[4..]
  {
    hide Letter, Value, Bits, Group;
    ValueLetter(s[0]);
    ValueLetter(s[1]);
    ValueLetter(s[2]);
    ValueLetter(s[3]);
    var (a, b, c, d) := (Value(s[0]).value, Value(s[1]).value, Value(s[2]).value, Value(s[3]).value);
    SextetsOfBits(a, b, c, d);
    GroupOfBytes(Bits(a, b, c, d));
    assert s == [s[0], s[1], s[2], s[3]] + s[4..];
  }

  lemma {:induction false} LowByteZero(m: int)
    ensures 0x100 * m % 0x100 == 0
  {
  }

  lemma {:induction false} PaddedTwoBits(a: Sextet, b: Sextet, c: Sextet)
    requires c % 4 == 0
    ensures Bits(a, b, c, 0) % 0x100 == 0
  {
    var k := c as int / 4;
    assert c as int == 4 * k;
    var m := a as int * 0x400 + b as int * 16 + k;
    assert Bits(a, b, c, 0) == 0x100 * m;
    LowByteZero(m);
  }

  lemma {:induction false} PaddedOneBits(a: Sextet, b: Sextet)
    requires b % 16 == 0
    ensures Bits(a, b, 0, 0) % 0x100 == 0 && Bits(a, b, 0, 0) / 0x100 % 0x100 == 0
  {
    var k := b as int / 16;
    assert b as int == 16 * k;
    var m := a as int * 4 + k;
    var g := Bits(a, b, 0, 0);
    assert g == 0x100 * (0x100 * m);
    LowByteZero(0x100 * m);
    assert g / 0x100 == 0x100 * m;
    LowByteZero(m);
  }

  lemma {:induction false} PaddedOne(s: string)
    requires |s| == 4 && s[2] == PAD && s[3] == PAD && Decode(s).Some?
    ensures Encode(Decode(s).value) == s
  {
    hide Letter, Value, Bits, Group;
    var (a, b) := (Value(s[0]).value, Value(s[1]).value);
    ValueLetter(s[0]);
    ValueLetter(s[1]);
    SextetsOfBits(a, b, 0, 0);
    GroupOfBytes(Bits(a, b, 0, 0));
    PaddedOneBits(a, b);
    assert s == [s[0], s[1], PAD, PAD];
  }

  lemma {:induction false} PaddedTwo(s: string)
    requires |s| == 4 && s[2] != PAD && s[3] == PAD && Decode(s).Some?
    ensures Encode(Decode(s).value) == s
  {
    hide Letter, Value, Bits, Group;
    var (a, b, c) := (Value(s[0]).value, Value(s[1]).value, Value(s[2]).value);
    ValueLetter(s[0]);
    ValueLetter(s[1]);
    ValueLetter(s[2]);
    SextetsOfBits(a, b, c, 0);
    GroupOfBytes(Bits(a, b, c, 0));
    PaddedTwoBits(a, b, c);
    assert s == [s[0], s[1], s[2], PAD];
  }

  lemma {:induction false} EncodeUndoesDecode(s: string)
    requires Decode(s).Some?
    ensures Encode(Decode(s).value) == s
    decreases |s|
  {
    if s != "" {
      if |s| == 4 && s[2] == PAD && s[3] == PAD {
        PaddedOne(s);
      } else if |s| == 4 && s[3] == PAD {
        PaddedTwo(s);
      } else {
        DecodedTail(s);
        EncodeUndoesDecode(s[4..]);
        var r := Decode(s).value;
        assert r[3..] == Decode(s[4..]).value;
      }
    }
  }

  /** The strict decoder accepts exactly the encoder's outputs, and inverts them. */
  lemma {:induction false} DecodesIffEncoded(s: string, b: Bytes)
    ensures Decode(s) == Some(b) <==> s == Encode(b)
  {
    DecodeUndoesEncode(b);
    if Decode(s) == Some(b) { EncodeUndoesDecode(s); }
  }

  // ----- the encoder's loop -----

  /** The characters for the first three bytes or fewer, and the bytes after them. */
  function First(b: Bytes): string
    requires b != []
  {
    var g := Group(b[0], if |b| > 1 then b[1] else 0, if |b| > 2 then b[2] else 0);
    [Digit(g, 0x4_0000), Digit(g, 0x1000), if |b| > 1 then Digit(g, 0x40) else PAD, if |b| > 2 then Digit(g, 1) else PAD]
  }

  function After(b: Bytes): Bytes {
    if |b| <= 3 then [] else b[3..]
  }

  lemma {:induction false} FirstAndAfter(b: Bytes, used: string)
    requires b != []
    ensures (used + First(b)) + Encode(After(b)) == used + Encode(b)
  {
    hide Digit, Group;
    assert Encode(b) == First(b) + Encode(After(b));
  }

  method FirstQuad(input: Bytes, i: nat) returns (quad: string)
    requires i < |input|
    ensures quad == First(input[i..])
  {
    var value: nat := input[i] as int * 0x1_0000;
    if i + 1 < |input| { value := value + input[i + 1] as int * 0x100; }
    if i + 2 < |input| { value := value + input[i + 2] as int; }
    ghost var b := input[i..];
    assert value == Group(b[0], if |b| > 1 then b[1] else 0, if |b| > 2 then b[2] else 0);
    hide Group, Letter;
    quad := [Letter(value / 0x4_0000 % 64), Letter(value / 0x1000 % 64),
             if i + 1 < |input| then Letter(value / 0x40 % 64) else PAD,
             if i + 2 < |input| then Letter(value / 1 % 64) else PAD];
  }

  /** Encodes into a buffer of `capacity` characters, the terminating NUL included; refused unless the
      text is shorter than that. */
  method Write(input: Bytes, capacity: nat) returns (out: Option<string>)
    ensures out == if |Encode(input)| < capacity then Some(Encode(input)) else None
  {
    EncodeLength(input);
    var needed := (|input| + 2) / 3 * 4;
    if needed >= capacity { return None; }
    var used := "";
    var i := 0;
    ghost var rest := input;
    hide Encode, First, After;
    while i < |input|
      invariant rest == if i < |input| then input[i..] else []
      invariant used + Encode(rest) == "" + Encode(input)
      decreases |input| - i
    {
      var quad := FirstQuad(input, i);
      FirstAndAfter(rest, used);
      AfterIs(input, i);
      used := used + quad;
      rest := After(rest);
      i := i + 3;
    }
    NothingLeft(used, input);
    return Some(used);
  }

  lemma {:induction false} AfterIs(input: Bytes, i: nat)
    requires i < |input|
    ensures After(input[i..]) == if i + 3 < |input| then input[i + 3..] else []
  {
  }

  lemma {:induction false} NothingLeft(used: string, input: Bytes)
    ensures used + Encode([]) == used && "" + Encode(input) == Encode(input)
  {
  }
}
