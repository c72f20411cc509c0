/** The recovery store: encrypted preimages, each in a file of its own, read back before anything
    relies on them. JSON parsing, AES-GCM and the two lenient decoders enter as functions that undo the
    printers and encoders below. */
module Recovery {
  import opened Base64
  import opened Formats
  import opened Json
  import opened Octets
  import opened Sequences
  import Utf8
  import opened Wrappers

  const LIMIT := 2 * 1024 * 1024
  const FILE_LIMIT := 4 * LIMIT
  const NONCE := 12
  const TAG := 16

  /** More than two 64-bit numbers and a colon need. */
  const IDENTITY_LIMIT := 64

  datatype Operation = Write | Trash | Copy | Restore | Directory
  datatype Context = Context(rootId: string, rootIdentity: string, path: string, sourceIdentity: Option<string>,
                             operation: Operation)
  datatype Record = Record(context: Context, bytes: Bytes)

  datatype Sealed = Sealed(ciphertext: Bytes, tag: Bytes)
  datatype Envelope = Envelope(nonce: string, tag: string, ciphertext: string)
  datatype Payload = Payload(context: Context, base64: string)

  /** `text` and `base64` are decoders that accept anything and may repair it. */
  datatype Codec = Codec(
    text: Bytes -> string,
    base64: string -> Bytes,
    parseEnvelope: string -> Option<Envelope>,
    parsePayload: string -> Option<Payload>,
    seal: (Bytes, string, Bytes) -> Sealed,
    open: (Bytes, string, Sealed) -> Option<Bytes>)

  // ----- texts -----

  function OperationText(o: Operation): string {
    match o
    case Write => "write"
    case Trash => "trash"
    case Copy => "copy"
    case Restore => "restore"
    case Directory => "directory"
  }

  function SourceText(source: Option<string>, rest: string): string {
    if source.None? then "null" + rest else Quoted(source.value) + rest
  }

  /** A context and what follows it. */
  function ContextText(x: Context, rest: string): string {
    Member("{\"rootId\":", x.rootId, Member(",\"rootIdentity\":", x.rootIdentity, Member(",\"path\":", x.path,
      ",\"sourceIdentity\":" + SourceText(x.sourceIdentity,
        Member(",\"operation\":", OperationText(x.operation), "}" + rest)))))
  }

  function PayloadText(p: Payload): string {
    "{\"context\":" + ContextText(p.context, Member(",\"base64\":", p.base64, "}"))
  }

  function EnvelopeText(e: Envelope): string {
    Member("{\"version\":1,\"nonce\":", e.nonce, Member(",\"tag\":", e.tag, Member(",\"ciphertext\":", e.ciphertext, "}")))
  }

  function Aad(id: string): string {
    "gram-owner-recovery/v1/" + id
  }

  /** A ciphertext is as long as its plain text, and a tag has sixteen bytes. */
  ghost predicate Sized(c: Codec) {
    forall n, a, p :: |c.seal(n, a, p).ciphertext| == |p| && |c.seal(n, a, p).tag| == TAG
  }

  /** Decoding undoes encoding, parsing undoes printing, a sealed box opens to what was sealed, and
      the box of one record does not open as that of another. */
  ghost predicate Ideal(c: Codec) {
    && Sized(c)
    && (forall s :: c.text(Utf8.Encode(s)) == s)
    && (forall b :: c.base64(Encode(b)) == b)
    && (forall e :: c.parseEnvelope(EnvelopeText(e)) == Some(e))
    && (forall p :: c.parsePayload(PayloadText(p)) == Some(p))
    && (forall n, a, p :: c.open(n, a, c.seal(n, a, p)) == Some(p))
    && (forall n, id, other, p :: IsUuid(id) && IsUuid(other) && id != other ==>
          c.open(n, Aad(other), c.seal(n, Aad(id), p)) == None)
  }

  // ----- printed texts can be told apart -----

  lemma {:induction false} SourceFront(source: Option<string>, rest: string)
    ensures SourceText(source, rest) != "" && (SourceText(source, rest)[0] == 'n' <==> source.None?)
  {
  }

  lemma {:induction false} SourceCut(a: Option<string>, b: Option<string>, x: string, y: string)
    requires SourceText(a, x) == SourceText(b, y)
    ensures a == b && x == y
  {
    hide Quoted;
    SourceFront(a, x);
    SourceFront(b, y);
    if a.Some? {
      QuotedCut(a.value, b.value, x, y);
    } else {
      Cut("null", "null", x, y);
    }
  }

  lemma {:induction false} OperationTextInjective(a: Operation, b: Operation)
    requires OperationText(a) == OperationText(b)
    ensures a == b
  {
    assert OperationText(a)[0] == OperationText(b)[0] && |OperationText(a)| == |OperationText(b)|;
  }

  lemma {:induction false} ContextCut(a: Context, b: Context, x: string, y: string)
    requires ContextText(a, x) == ContextText(b, y)
    ensures a == b && x == y
  {
    hide Member, SourceText, OperationText;
    var (o, p) := (Member(",\"operation\":", OperationText(a.operation), "}" + x),
                   Member(",\"operation\":", OperationText(b.operation), "}" + y));
    var (s, t) := (",\"sourceIdentity\":" + SourceText(a.sourceIdentity, o), ",\"sourceIdentity\":" + SourceText(b.sourceIdentity, p));
    var (q, r) := (Member(",\"path\":", a.path, s), Member(",\"path\":", b.path, t));
    var (u, v) := (Member(",\"rootIdentity\":", a.rootIdentity, q), Member(",\"rootIdentity\":", b.rootIdentity, r));
    MemberCut("{\"rootId\":", a.rootId, b.rootId, u, v);
    MemberCut(",\"rootIdentity\":", a.rootIdentity, b.rootIdentity, q, r);
    MemberCut(",\"path\":", a.path, b.path, s, t);
    Cut(",\"sourceIdentity\":", ",\"sourceIdentity\":", SourceText(a.sourceIdentity, o), SourceText(b.sourceIdentity, p));
    SourceCut(a.sourceIdentity, b.sourceIdentity, o, p);
    MemberCut(",\"operation\":", OperationText(a.operation), OperationText(b.operation), "}" + x, "}" + y);
    OperationTextInjective(a.operation, b.operation);
    Cut("}", "}", x, y);
  }

  lemma {:induction false} PayloadTextInjective(a: Payload, b: Payload)
    requires PayloadText(a) == PayloadText(b)
    ensures a == b
  {
    hide Member, ContextText;
    var (x, y) := (Member(",\"base64\":", a.base64, "}"), Member(",\"base64\":", b.base64, "}"));
    Cut("{\"context\":", "{\"context\":", ContextText(a.context, x), ContextText(b.context, y));
    ContextCut(a.context, b.context, x, y);
    MemberCut(",\"base64\":", a.base64, b.base64, "}", "}");
  }

  lemma {:induction false} EnvelopeTextInjective(a: Envelope, b: Envelope)
    requires EnvelopeText(a) == EnvelopeText(b)
    ensures a == b
  {
    hide Member;
    var (x, y) := (Member(",\"ciphertext\":", a.ciphertext, "}"), Member(",\"ciphertext\":", b.ciphertext, "}"));
    var (s, t) := (Member(",\"tag\":", a.tag, x), Member(",\"tag\":", b.tag, y));
    MemberCut("{\"version\":1,\"nonce\":", a.nonce, b.nonce, s, t);
    MemberCut(",\"tag\":", a.tag, b.tag, x, y);
    MemberCut(",\"ciphertext\":", a.ciphertext, b.ciphertext, "}", "}");
  }

  // ----- contexts -----

  predicate IsContext(x: Context) {
    && IsRootId(x.rootId) && IsIdentity(x.rootIdentity)
    && (x.sourceIdentity.Some? ==> IsIdentity(x.sourceIdentity.value))
    && IsRelativePath(x.path)
  }

  // ----- one file -----

  /** What capture writes. */
  function Written(c: Codec, x: Context, bytes: Bytes, id: string, nonce: Bytes): Bytes {
    var sealed := c.seal(nonce, Aad(id), Utf8.Encode(PayloadText(Payload(x, Encode(bytes)))));
    Utf8.Encode(EnvelopeText(Envelope(Encode(nonce), Encode(sealed.tag), Encode(sealed.ciphertext))))
  }

  /** What reading a file gives; None for anything malformed, oversized or not authentic for this id. */
  function ReadBack(c: Codec, file: Bytes, id: string): Option<Record> {
    if |file| > FILE_LIMIT then None
    else match c.parseEnvelope(c.text(file))
      case None => None
      case Some(e) => Opened(c, e, id)
  }

  function Opened(c: Codec, e: Envelope, id: string): Option<Record> {
    var (nonce, tag) := (c.base64(e.nonce), c.base64(e.tag));
    if |nonce| != NONCE || |tag| != TAG then None
    else match c.open(nonce, Aad(id), Sealed(c.base64(e.ciphertext), tag))
      case None => None
      case Some(plain) => match c.parsePayload(c.text(plain))
        case None => None
        case Some(p) => Checked(p)
  }

  function Checked(p: Payload): Option<Record> {
    var bytes := Decode(p.base64);
    if !IsContext(p.context) || bytes.None? || |bytes.value| > LIMIT then None else Some(Record(p.context, bytes.value))
  }

  lemma {:induction false} EnvelopeOpens(c: Codec, x: Context, bytes: Bytes, id: string, nonce: Bytes, reader: string)
    requires Ideal(c) && IsContext(x) && |bytes| <= LIMIT && |nonce| == NONCE && IsUuid(id) && IsUuid(reader)
    ensures var sealed := c.seal(nonce, Aad(id), Utf8.Encode(PayloadText(Payload(x, Encode(bytes)))));
            Opened(c, Envelope(Encode(nonce), Encode(sealed.tag), Encode(sealed.ciphertext)), reader) ==
            if reader == id then Some(Record(x, bytes)) else None
  {
    hide Encode, Decode, PayloadText, EnvelopeText, IsContext, Aad, IsUuid, Utf8.Encode;
    DecodeUndoesEncode(bytes);
  }

  /** A written file reads back as the same record under its own id, and as nothing under any other. */
  lemma {:induction false} RecordRoundTrip(c: Codec, x: Context, bytes: Bytes, id: string, nonce: Bytes, reader: string)
    requires Ideal(c) && IsContext(x) && |bytes| <= LIMIT && |nonce| == NONCE && IsUuid(id) && IsUuid(reader)
    ensures ReadBack(c, Written(c, x, bytes, id, nonce), reader) ==
            if |Written(c, x, bytes, id, nonce)| <= FILE_LIMIT && reader == id then Some(Record(x, bytes)) else None
  {
    hide Opened, Encode, PayloadText, EnvelopeText, IsContext, IsUuid, Utf8.Encode;
    EnvelopeOpens(c, x, bytes, id, nonce, reader);
  }

  // ----- sizes through three rounds of text -----

  lemma {:induction false} FourPlain(a: char, b: char, c: char, d: char)
    requires PlainChar(a) && PlainChar(b) && PlainChar(c) && PlainChar(d)
    ensures Plain([a, b, c, d])
  {
    assert [a, b, c, d][1..] == [b, c, d] && [b, c, d][1..] == [c, d] && [c, d][1..] == [d] && [d][1..] == [];
    assert Plain([c, d]);
  }

  lemma {:induction false} DigitsPlain(g: nat)
    ensures PlainChar(Digit(g, 0x4_0000)) && PlainChar(Digit(g, 0x1000)) && PlainChar(Digit(g, 0x40)) && PlainChar(Digit(g, 1))
  {
  }

  lemma {:induction false} QuadPlain(x: Byte, y: Byte, z: Byte)
    ensures Plain(Quad(x, y, z))
    ensures Plain(Encode([x, y])) && Plain(Encode([x]))
  {
    assert PlainChar(PAD);
    hide Digit, Group, Plain, PlainChar;
    var (g, h, k) := (Group(x, y, z), Group(x, y, 0), Group(x, 0, 0));
    DigitsPlain(g);
    DigitsPlain(h);
    DigitsPlain(k);
    FourPlain(Digit(g, 0x4_0000), Digit(g, 0x1000), Digit(g, 0x40), Digit(g, 1));
    FourPlain(Digit(h, 0x4_0000), Digit(h, 0x1000), Digit(h, 0x40), PAD);
    FourPlain(Digit(k, 0x4_0000), Digit(k, 0x1000), PAD, PAD);
  }

  lemma {:induction false} EncodeIsPlain(b: Bytes)
    ensures Plain(Encode(b))
    decreases |b|
  {
    hide Digit, Group, Quad;
    if |b| >= 3 {
      EncodeIsPlain(b[3..]);
      QuadPlain(b[0], b[1], b[2]);
      PlainTogether(Quad(b[0], b[1], b[2]), Encode(b[3..]));
    } else if |b| == 2 {
      QuadPlain(b[0], b[1], 0);
      assert b == [b[0], b[1]];
    } else if |b| == 1 {
      QuadPlain(b[0], 0, 0);
      assert b == [b[0]];
    }
  }

  predicate Bounded(x: Context) {
    |x.rootIdentity| <= IDENTITY_LIMIT && (x.sourceIdentity.Some? ==> |x.sourceIdentity.value| <= IDENTITY_LIMIT)
  }

  lemma {:induction false} SourceSize(source: Option<string>, rest: string)
    requires source.Some? ==> |source.value| <= IDENTITY_LIMIT
    ensures Utf8.Size(SourceText(source, rest)) <= 400 + Utf8.Size(rest)
  {
    if source.Some? {
      QuotedSize(source.value);
      Utf8.SizeSplit(Quoted(source.value), rest);
    } else {
      Utf8.SizeBound("null");
      Utf8.SizeSplit("null", rest);
    }
    hide Quoted, Utf8.Size;
  }

  lemma {:induction false} ContextSize(x: Context, rest: string)
    requires IsContext(x) && Bounded(x)
    ensures Utf8.Size(ContextText(x, rest)) <= 20_000 + Utf8.Size(rest)
  {
    assert |x.rootId| <= 32 && |x.path| <= PATH_LIMIT && |OperationText(x.operation)| <= 9;
    hide IsContext, Member, SourceText, OperationText, Utf8.Size;
    var o := Member(",\"operation\":", OperationText(x.operation), "}" + rest);
    var s := ",\"sourceIdentity\":" + SourceText(x.sourceIdentity, o);
    var p := Member(",\"path\":", x.path, s);
    var i := Member(",\"rootIdentity\":", x.rootIdentity, p);
    MemberSize("{\"rootId\":", x.rootId, i);
    MemberSize(",\"rootIdentity\":", x.rootIdentity, p);
    MemberSize(",\"path\":", x.path, s);
    Utf8.SizeSplit(",\"sourceIdentity\":", SourceText(x.sourceIdentity, o));
    Utf8.SizeBound(",\"sourceIdentity\":");
    SourceSize(x.sourceIdentity, o);
    MemberSize(",\"operation\":", OperationText(x.operation), "}" + rest);
    Utf8.SizeSplit("}", rest);
    Utf8.SizeBound("}");
  }

  lemma {:induction false} PayloadSize(x: Context, bytes: Bytes)
    requires IsContext(x) && Bounded(x) && |bytes| <= LIMIT
    ensures Utf8.Size(PayloadText(Payload(x, Encode(bytes)))) <= 2_830_000
  {
    hide ContextText, Encode, IsContext, Member, Utf8.Size;
    var (k, b) := ("{\"context\":", Encode(bytes));
    var m := Member(",\"base64\":", b, "}");
    Utf8.SizeSplit(k, ContextText(x, m));
    Utf8.SizeBound(k);
    ContextSize(x, m);
    MemberSize(",\"base64\":", b, "}");
    EncodeIsPlain(bytes);
    EncodeLength(bytes);
    Utf8.SizeBound("}");
  }

  lemma {:induction false} EnvelopeSize(nonce: Bytes, tag: Bytes, ciphertext: Bytes)
    requires |nonce| == NONCE && |tag| == TAG && |ciphertext| <= 2_830_000
    ensures Utf8.Size(EnvelopeText(Envelope(Encode(nonce), Encode(tag), Encode(ciphertext)))) <= FILE_LIMIT
  {
    EncodeLength(nonce);
    EncodeLength(tag);
    EncodeLength(ciphertext);
    EncodeIsPlain(ciphertext);
    hide Encode, Member, Utf8.Size;
    var (n, t, x) := (Encode(nonce), Encode(tag), Encode(ciphertext));
    var m := Member(",\"ciphertext\":", x, "}");
    MemberSize("{\"version\":1,\"nonce\":", n, Member(",\"tag\":", t, m));
    MemberSize(",\"tag\":", t, m);
    MemberSize(",\"ciphertext\":", x, "}");
    Utf8.SizeBound("}");
  }

  /** No record within the limit is refused for its size when it is read: the file stays below four
      times the limit through both rounds of base64. */
  lemma {:induction false} FileFits(c: Codec, x: Context, bytes: Bytes, id: string, nonce: Bytes)
    requires Sized(c) && IsContext(x) && Bounded(x) && |bytes| <= LIMIT && |nonce| == NONCE
    ensures |Written(c, x, bytes, id, nonce)| <= FILE_LIMIT
  {
    hide Encode, PayloadText, EnvelopeText, IsContext, Utf8.Size, Utf8.Encode;
    var text := PayloadText(Payload(x, Encode(bytes)));
    var sealed := c.seal(nonce, Aad(id), Utf8.Encode(text));
    PayloadSize(x, bytes);
    Utf8.EncodeLength(text);
    EnvelopeSize(nonce, sealed.tag, sealed.ciphertext);
    Utf8.EncodeLength(EnvelopeText(Envelope(Encode(nonce), Encode(sealed.tag), Encode(sealed.ciphertext))));
  }

  // ----- the store -----

  /** How writing a new file goes: it may break off and leave a part, or nothing. */
  datatype Io = Whole | Broken(left: Option<Bytes>)

  class Store {
    const codec: Codec
    var files: map<string, Bytes>

    constructor (codec: Codec)
      ensures this.codec == codec && files == map[]
    {
      this.codec, files := codec, map[];
    }

    /** What an id reads as. */
    function Reads(id: string): Option<Record>
      reads this
    {
      if IsUuid(id) && id in files then ReadBack(codec, files[id], id) else None
    }

    method ReadRecord(id: string) returns (r: Option<Record>)
      ensures r == Reads(id)
    {
      if !IsUuid(id) || id !in files { return None; }
      return ReadBack(codec, files[id], id);
    }

    method Read(id: string, expected: Context) returns (r: Option<Bytes>)
      ensures r == if IsContext(expected) && Reads(id).Some? && Reads(id).value.context == expected
                   then Some(Reads(id).value.bytes) else None
    {
      if !IsContext(expected) { return None; }
      var record := ReadRecord(id);
      if record.None? || record.value.context != expected { return None; }
      return Some(record.value.bytes);
    }

    method ReadForTarget(id: string, rootId: string, rootIdentity: string, path: string) returns (r: Option<Record>)
      ensures r == if Reads(id).Some? && Reads(id).value.context.rootId == rootId
                      && Reads(id).value.context.rootIdentity == rootIdentity && Reads(id).value.context.path == path
                   then Reads(id) else None
    {
      var record := ReadRecord(id);
      if record.None? || record.value.context.rootId != rootId || record.value.context.rootIdentity != rootIdentity
         || record.value.context.path != path { return None; }
      return record;
    }

    /** Writes a record under a new id, never over another, and reads it back before reporting success.
        Success means the id reads as exactly these bytes in this context; every other id reads as before. */
    method Capture(x: Context, bytes: Bytes, id: string, nonce: Bytes, io: Io) returns (ok: bool)
      requires Ideal(codec) && IsUuid(id) && |nonce| == NONCE
      modifies this
      ensures ok ==> Reads(id) == Some(Record(x, bytes))
      ensures forall other :: other != id ==> Reads(other) == old(Reads(other))
      ensures ok <==> IsContext(x) && |bytes| <= LIMIT && io.Whole? && id !in old(files)
                      && |Written(codec, x, bytes, id, nonce)| <= FILE_LIMIT
      ensures old(files).Keys <= files.Keys && files.Keys <= old(files).Keys + {id}
      ensures id in old(files) ==> files == old(files)
    {
      hide Written, ReadBack, Bounded, Sized, Ideal, IsContext, IsUuid;
      if !IsContext(x) || |bytes| > LIMIT || id in files { return false; }
      if io.Broken? {
        if io.left.Some? { files := files[id := io.left.value]; }
        return false;
      }
      files := files[id := Written(codec, x, bytes, id, nonce)];
      RecordRoundTrip(codec, x, bytes, id, nonce, id);
      var back := Read(id, x);
      ok := back == Some(bytes);
    }
  }

  lemma {:induction false} OperationsSpelled()
    ensures OperationText(Write) == "write" && OperationText(Trash) == "trash" && OperationText(Copy) == "copy"
    ensures OperationText(Restore) == "restore" && OperationText(Directory) == "directory"
  {
  }

  /** The texts that are sealed and stored, spelled out. */
  lemma {:induction false} TextsSpelled(x: Context, base64: string, e: Envelope)
    ensures PayloadText(Payload(x, base64)) ==
            "{\"context\":" + ("{\"rootId\":" + (Quoted(x.rootId) + (",\"rootIdentity\":" + (Quoted(x.rootIdentity)
            + (",\"path\":" + (Quoted(x.path) + (",\"sourceIdentity\":"
            + ((if x.sourceIdentity.None? then "null" else Quoted(x.sourceIdentity.value))
            + (",\"operation\":" + (Quoted(OperationText(x.operation)) + ("}"
            + (",\"base64\":" + (Quoted(base64) + "}")))))))))))))
    ensures EnvelopeText(e) ==
            "{\"version\":1,\"nonce\":" + (Quoted(e.nonce) + (",\"tag\":" + (Quoted(e.tag) + (",\"ciphertext\":"
            + (Quoted(e.ciphertext) + "}")))))
  {
    hide Quoted;
  }
}
