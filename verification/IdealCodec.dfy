/** A codec that meets everything the recovery store is proved under: parsers that invert the
    printers, and a cipher whose tag spells out the record's id. */
module IdealCodec {
  import B = Base64
  import opened Formats
  import opened Octets
  import opened Recovery
  import opened Sequences
  import Utf8
  import opened Wrappers

  // ----- a tag that is the id itself -----

  function HexValue(c: char): (v: nat)
    ensures v < 16
  {
    if '0' <= c <= '9' then (c - '0') as nat else if 'a' <= c <= 'f' then 10 + (c - 'a') as nat else 0
  }

  /** Where the j-th hexadecimal digit of a UUID stands. */
  function Place(j: nat): nat {
    if j < 8 then j else if j < 12 then j + 1 else if j < 16 then j + 2 else if j < 20 then j + 3 else j + 4
  }

  function Pair(high: char, low: char): Byte {
    16 * HexValue(high) + HexValue(low)
  }

  /** The 32 digits of the UUID that ends a text, in sixteen bytes. */
  function Pack(text: string): Bytes {
    if |text| < 36 then seq(TAG, _ => 0)
    else
      var id := text[|text| - 36..];
      seq(TAG, k requires 0 <= k < TAG => Pair(id[Place(2 * k)], id[Place(2 * k + 1)]))
  }

  lemma {:induction false} PairInjective(a: char, b: char, c: char, d: char)
    requires Hex(a) && Hex(b) && Hex(c) && Hex(d) && Pair(a, b) == Pair(c, d)
    ensures a == c && b == d
  {
    assert HexValue(a) == HexValue(c) && HexValue(b) == HexValue(d) by {
      hide HexValue, Hex;
    }
  }

  lemma {:induction false} SameDigit(a: string, b: string, k: nat)
    requires IsId(a) && IsId(b) && k < TAG
    requires Pair(a[Place(2 * k)], a[Place(2 * k + 1)]) == Pair(b[Place(2 * k)], b[Place(2 * k + 1)])
    ensures a[Place(2 * k)] == b[Place(2 * k)] && a[Place(2 * k + 1)] == b[Place(2 * k + 1)]
  {
    var (i, j) := (Place(2 * k), Place(2 * k + 1));
    assert IdChar(i, a[i]) && IdChar(j, a[j]) && IdChar(i, b[i]) && IdChar(j, b[j]);
    hide Pair;
    PairInjective(a[i], a[j], b[i], b[j]);
  }

  /** Every place of a UUID holds a dash or one of its digits. */
  lemma {:induction false} PlaceOf(i: nat) returns (j: nat)
    requires i < 36 && i !in {8, 13, 18, 23}
    ensures j < 32 && Place(j) == i
  {
    j := if i < 8 then i else if i < 13 then i - 1 else if i < 18 then i - 2 else if i < 23 then i - 3 else i - 4;
  }

  lemma {:induction false} PackInjective(a: string, b: string)
    requires IsId(a) && IsId(b) && Pack(Aad(a)) == Pack(Aad(b))
    ensures a == b
  {
    AadEnds(a);
    AadEnds(b);
    forall i | 0 <= i < 36 ensures a[i] == b[i] {
      if i in {8, 13, 18, 23} {
        assert IdChar(i, a[i]) && IdChar(i, b[i]);
      } else {
        var j := PlaceOf(i);
        assert Pack(Aad(a))[j / 2] == Pack(Aad(b))[j / 2];
        hide Pair, Place, IsId;
        SameDigit(a, b, j / 2);
        assert j == 2 * (j / 2) || j == 2 * (j / 2) + 1;
      }
    }
  }

  lemma {:induction false} AadEnds(id: string)
    requires |id| == 36
    ensures Aad(id)[|Aad(id)| - 36..] == id
  {
  }

  // ----- parsers -----

  ghost function EnvelopeFrom(t: string): Option<Envelope> {
    if exists e :: EnvelopeText(e) == t then Some(var e :| EnvelopeText(e) == t; e) else None
  }

  ghost function PayloadFrom(t: string): Option<Payload> {
    if exists p :: PayloadText(p) == t then Some(var p :| PayloadText(p) == t; p) else None
  }

  lemma {:induction false} ParsersUndoPrinters(e: Envelope, p: Payload)
    ensures EnvelopeFrom(EnvelopeText(e)) == Some(e) && PayloadFrom(PayloadText(p)) == Some(p)
  {
    hide EnvelopeText, PayloadText;
    EnvelopeTextInjective(EnvelopeFrom(EnvelopeText(e)).value, e);
    PayloadTextInjective(PayloadFrom(PayloadText(p)).value, p);
  }

  function Text(b: Bytes): string {
    var s := Utf8.Decode(b);
    if s.Some? then s.value else ""
  }

  function FromBase64(s: string): Bytes {
    var b := B.Decode(s);
    if b.Some? then b.value else []
  }

  function Seal(nonce: Bytes, aad: string, plain: Bytes): Sealed {
    Sealed(plain, Pack(aad))
  }

  function Open(nonce: Bytes, aad: string, box: Sealed): Option<Bytes> {
    if box.tag == Pack(aad) then Some(box.ciphertext) else None
  }

  /** What the recovery store is proved under can be met. */
  lemma {:induction false} IdealExists() returns (c: Codec)
    ensures Ideal(c)
  {
    c := Codec(Text, FromBase64, t => EnvelopeFrom(t), t => PayloadFrom(t), Seal, Open);
    forall s ensures c.text(Utf8.Encode(s)) == s { Utf8.DecodeUndoesEncode(s); }
    forall b ensures c.base64(B.Encode(b)) == b { B.DecodeUndoesEncode(b); }
    forall e ensures c.parseEnvelope(EnvelopeText(e)) == Some(e) { ParsersUndoPrinters(e, Payload(Context("", "", "", None, Write), "")); }
    forall p ensures c.parsePayload(PayloadText(p)) == Some(p) { ParsersUndoPrinters(Envelope("", "", ""), p); }
    forall n, id, other, p | IsUuid(id) && IsUuid(other) && id != other ensures c.open(n, Aad(other), c.seal(n, Aad(id), p)) == None {
      if Pack(Aad(id)) == Pack(Aad(other)) { PackInjective(id, other); }
    }
    hide EnvelopeText, PayloadText, EnvelopeFrom, PayloadFrom, Pack, Aad, IsUuid;
  }
}
