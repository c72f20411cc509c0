/** The reader that decides which worktree directories hold tracked files, against a writer of the
    Git index format, versions 2 and 3. */
module GitIndex {
  import opened Formats
  import opened Octets
  import opened Sequences
  import Utf8
  import opened Wrappers

  const NAME_LIMIT := 2048
  const COUNT_LIMIT := 100_000
  const MINIMUM := 32
  const TRAILER := 20
  const SIGNATURE: Bytes := [0x44, 0x49, 0x52, 0x43]
  const BOM: char := '\U{FEFF}'

  /** What SHA-1 gives; the hash itself is a parameter. */
  type Digest = d: Bytes | |d| == TRAILER witness seq(TRAILER, _ => 0)

  // ----- reading -----

  function U16(b: Bytes, at: nat): nat
    requires at + 2 <= |b|
  {
    b[at] as int * 0x100 + b[at + 1] as int
  }

  function U32(b: Bytes, at: nat): nat
    requires at + 4 <= |b|
  {
    U16(b, at) * 0x1_0000 + U16(b, at + 2)
  }

  predicate Extended(flags: nat) {
    flags / 0x4000 % 2 == 1
  }

  /** The first NUL at or after `from`, or the length of the buffer. */
  function Nul(b: Bytes, from: nat): (r: nat)
    requires from <= |b|
    ensures from <= r <= |b|
    decreases |b| - from
  {
    if from == |b| || b[from] == 0 then from else Nul(b, from + 1)
  }

  /** The decoder the reader uses drops a leading byte order mark. */
  function Unmarked(s: string): string {
    if s != "" && s[0] == BOM then s[1..] else s
  }

  /** A relative path whose segments are all ordinary names. */
  predicate OrdinaryPath(s: string) {
    && s != "" && s[0] != '/' && '\\' !in s
    && forall k :: 0 <= k < |Segments(s)| ==> Segments(s)[k] !in {"", ".", ".."}
  }

  /** Nothing that stands in it between slashes is empty or climbs, and it has no backslash. */
  lemma {:induction false} OrdinaryPathIff(s: string)
    ensures OrdinaryPath(s) <==>
            && s != "" && s[0] != '/' && (forall c :: c in s ==> c != '\\')
            && forall a, x, b :: Between(s, '/', a, x, b) ==> x != "" && x != "." && x != ".."
  {
    hide Between;
    forall x ensures x in Segments(s) <==> IsPart(s, '/', x) {
      PartsFrom("", s, '/', x);
      assert "" + s == s;
    }
    hide Segments;
    forall a, x, b | Between(s, '/', a, x, b) ensures x in Segments(s) { assert IsPart(s, '/', x); }
    forall k | 0 <= k < |Segments(s)| ensures IsPart(s, '/', Segments(s)[k]) { assert Segments(s)[k] in Segments(s); }
  }

  datatype Entry = Entry(name: string, next: nat)

  function Padded(length: nat): nat {
    (length + 7) / 8 * 8
  }

  /** One entry at `start`: its name and where the next one begins, always further on and still in
      the body. */
  function ReadEntry(b: Bytes, version: nat, start: nat, bodyEnd: nat): (r: Option<Entry>)
    requires bodyEnd <= |b|
    ensures r.Some? ==> start < r.value.next <= bodyEnd
  {
    if start + 62 > bodyEnd then None
    else
      var prefix := if Extended(U16(b, start + 60)) && version == 3 then 64 else 62;
      var nameStart := start + prefix;
      if nameStart >= bodyEnd then None
      else
        var nameEnd := Nul(b, nameStart);
        if nameEnd >= bodyEnd || nameEnd - nameStart > NAME_LIMIT then None
        else
          var decoded := Utf8.Decode(b[nameStart..nameEnd]);
          if decoded.None? || !OrdinaryPath(Unmarked(decoded.value)) then None
          else
            var next := start + Padded(prefix + (nameEnd - nameStart) + 1);
            if next > bodyEnd then None else Some(Entry(Unmarked(decoded.value), next))
  }

  function ReadEntries(b: Bytes, version: nat, count: nat, start: nat, bodyEnd: nat): Option<seq<string>>
    requires bodyEnd <= |b|
    decreases count
  {
    if count == 0 then Some([])
    else match ReadEntry(b, version, start, bodyEnd)
      case None => None
      case Some(e) =>
        match ReadEntries(b, version, count - 1, e.next, bodyEnd)
        case None => None
        case Some(rest) => Some([e.name] + rest)
  }

  /** Comparing as text of seven-bit characters: the top bit of each byte is ignored. */
  predicate Signed(b: Bytes)
    requires |b| >= 4
  {
    forall k :: 0 <= k < 4 ==> b[k] % 0x80 == SIGNATURE[k]
  }

  predicate Framed(sha1: Bytes -> Digest, b: Bytes) {
    && |b| >= MINIMUM && Signed(b)
    && U32(b, 4) in {2, 3} && U32(b, 8) <= COUNT_LIMIT
    && sha1(b[..|b| - TRAILER]) == b[|b| - TRAILER..]
  }

  function Names(list: seq<string>): set<string> {
    set k | 0 <= k < |list| :: list[k]
  }

  /** The tracked paths of an index, or None for anything the reader refuses. */
  function ReadIndex(sha1: Bytes -> Digest, b: Bytes): Option<set<string>> {
    if !Framed(sha1, b) then None
    else Collected(ReadEntries(b, U32(b, 4), U32(b, 8), 12, |b| - TRAILER))
  }

  lemma {:induction false} NamesGrow(list: seq<string>, name: string)
    ensures Names(list + [name]) == Names(list) + {name}
  {
    var more := list + [name];
    assert more[|list|] == name;
    forall k | 0 <= k < |list| ensures more[k] == list[k] {}
    assert forall n :: n in Names(list) ==> n in Names(more);
  }

  method TrackedIndexPaths(sha1: Bytes -> Digest, index: Bytes) returns (r: Option<set<string>>)
    ensures r == ReadIndex(sha1, index)
    ensures r.Some? ==>
              && |index| >= 32
              && [index[0] % 128, index[1] % 128, index[2] % 128, index[3] % 128] == [0x44, 0x49, 0x52, 0x43]
              && sha1(index[..|index| - 20]) == index[|index| - 20..]
  {
    if |index| < MINIMUM || !Signed(index) { return None; }
    var version, count := U32(index, 4), U32(index, 8);
    if version !in {2, 3} || count > COUNT_LIMIT { return None; }
    var bodyEnd := |index| - TRAILER;
    if sha1(index[..bodyEnd]) != index[bodyEnd..] { return None; }
    r := ReadPaths(index, version, count, bodyEnd);
  }

  function Collected(list: Option<seq<string>>): Option<set<string>> {
    if list.None? then None else Some(Names(list.value))
  }

  /** The reader's loop over the entries. */
  method ReadPaths(index: Bytes, version: nat, count: nat, bodyEnd: nat) returns (r: Option<set<string>>)
    requires 12 <= bodyEnd <= |index|
    ensures r == Collected(ReadEntries(index, version, count, 12, bodyEnd))
  {
    hide *;
    NoNames();
    var position := 12;
    var tracked: set<string> := {};
    ghost var list: seq<string> := [];
    ghost var whole := ReadEntries(index, version, count, 12, bodyEnd);
    var i := 0;
    PrependNothing(whole);
    while i < count
      invariant i <= count && 12 <= position <= bodyEnd && tracked == Names(list)
      invariant whole == Prepend(list, ReadEntries(index, version, count - i, position, bodyEnd))
    {
      var e := ReadEntry(index, version, position, bodyEnd);
      ReadStep(list, index, version, count - i, position, bodyEnd);
      CollectedIs(whole);
      if e.None? { return None; }
      tracked := tracked + {e.value.name};
      NamesGrow(list, e.value.name);
      list := list + [e.value.name];
      position := e.value.next;
      i := i + 1;
    }
    ReadEnd(list, index, version, position, bodyEnd);
    CollectedIs(whole);
    return Some(tracked);
  }

  lemma {:induction false} NoNames()
    ensures Names([]) == {}
  {
  }

  lemma {:induction false} CollectedIs(list: Option<seq<string>>)
    ensures list.None? ==> Collected(list) == None
    ensures list.Some? ==> Collected(list) == Some(Names(list.value))
  {
  }

  lemma {:induction false} ReadEnd(list: seq<string>, b: Bytes, version: nat, position: nat, bodyEnd: nat)
    requires bodyEnd <= |b|
    ensures Prepend(list, ReadEntries(b, version, 0, position, bodyEnd)) == Some(list)
  {
    assert list + [] == list;
  }

  lemma {:induction false} ReadStep(list: seq<string>, b: Bytes, version: nat, left: nat, position: nat, bodyEnd: nat)
    requires bodyEnd <= |b| && left > 0
    ensures Prepend(list, ReadEntries(b, version, left, position, bodyEnd)) ==
            match ReadEntry(b, version, position, bodyEnd)
            case None => None
            case Some(e) => Prepend(list + [e.name], ReadEntries(b, version, left - 1, e.next, bodyEnd))
  {
    var e := ReadEntry(b, version, position, bodyEnd);
    if e.Some? {
      var rest := ReadEntries(b, version, left - 1, e.value.next, bodyEnd);
      if rest.Some? { assert list + ([e.value.name] + rest.value) == (list + [e.value.name]) + rest.value; }
    }
  }

  // ----- writing -----

  /** What a writer stores for one path: sixty bytes of metadata and object id, two of flags, two
      more when the extended flag is set. */
  datatype Item = Item(metadata: Bytes, high: Byte, low: Byte, extra: Bytes, name: string)

  predicate WellFormed(i: Item, version: nat) {
    && |i.metadata| == 60
    && (i.high / 0x40 % 2 == 1 ==> version == 3)
    && |i.extra| == (if i.high / 0x40 % 2 == 1 then 2 else 0)
    && '\0' !in i.name
  }

  function Zeros(n: nat): Bytes {
    if n == 0 then [] else [0] + Zeros(n - 1)
  }

  function Header(i: Item): Bytes {
    i.metadata + ([i.high, i.low] + i.extra)
  }

  /** An entry: header, name, and one to eight NULs up to the next multiple of eight. */
  function WriteEntry(i: Item): Bytes {
    var unpadded := |Header(i)| + |Utf8.Encode(i.name)|;
    Header(i) + (Utf8.Encode(i.name) + Zeros(Padded(unpadded + 1) - unpadded))
  }

  function WriteEntries(items: seq<Item>): Bytes {
    if items == [] then [] else WriteEntry(items[0]) + WriteEntries(items[1..])
  }

  function Write32(n: nat): Bytes {
    [n / 0x100_0000 % 0x100, n / 0x1_0000 % 0x100, n / 0x100 % 0x100, n % 0x100]
  }

  function Body(version: nat, items: seq<Item>, extensions: Bytes): Bytes {
    (SIGNATURE + (Write32(version) + Write32(|items|))) + (WriteEntries(items) + extensions)
  }

  /** Header, entries, extensions the reader does not look at, and the checksum. */
  function WriteIndex(sha1: Bytes -> Digest, version: nat, items: seq<Item>, extensions: Bytes): Bytes {
    Body(version, items, extensions) + sha1(Body(version, items, extensions))
  }

  // ----- the reader undoes the writer -----

  lemma {:induction false} ZerosAreNul(n: nat)
    ensures |Zeros(n)| == n && forall k :: 0 <= k < n ==> Zeros(n)[k] == 0
  {
    if n > 0 { ZerosAreNul(n - 1); }
  }

  lemma {:induction false} PaddingFits(length: nat)
    ensures length < Padded(length + 1) <= length + 8
  {
  }

  /** `part` sits in `b` at `at`. */
  predicate Sits(b: Bytes, at: nat, part: Bytes) {
    at + |part| <= |b| && b[at..at + |part|] == part
  }

  lemma {:induction false} SitsAt(b: Bytes, at: nat, part: Bytes, k: nat)
    requires Sits(b, at, part) && k < |part|
    ensures at + k < |b| && b[at + k] == part[k]
  {
    assert b[at..at + |part|][k] == part[k];
  }

  lemma {:induction false} SitsSplit(b: Bytes, at: nat, x: Bytes, y: Bytes)
    requires Sits(b, at, x + y)
    ensures Sits(b, at, x) && Sits(b, at + |x|, y)
  {
    var z := b[at..at + |x + y|];
    assert z[..|x|] == x && z[|x|..] == y;
    assert b[at..at + |x|] == z[..|x|];
    assert b[at + |x|..at + |x| + |y|] == z[|x|..];
  }

  lemma {:induction false} NulAfter(b: Bytes, at: nat, name: Bytes)
    requires Sits(b, at, name) && at + |name| < |b| && b[at + |name|] == 0
    requires forall k :: 0 <= k < |name| ==> name[k] != 0
    ensures Nul(b, at) == at + |name|
    decreases |name|
  {
    if name != [] {
      SitsAt(b, at, name, 0);
      assert name == [name[0]] + name[1..];
      SitsSplit(b, at, [name[0]], name[1..]);
      NulAfter(b, at + 1, name[1..]);
    }
  }

  /** What the reader asks of a name. */
  predicate Acceptable(name: string) {
    |Utf8.Encode(name)| <= NAME_LIMIT && OrdinaryPath(Unmarked(name))
  }

  lemma {:induction false} HeaderRead(b: Bytes, version: nat, start: nat, i: Item)
    requires WellFormed(i, version) && version in {2, 3} && Sits(b, start, Header(i))
    ensures start + 62 <= |b|
    ensures |Header(i)| == if Extended(U16(b, start + 60)) && version == 3 then 64 else 62
  {
    assert Header(i)[60] == i.high && Header(i)[61] == i.low;
    SitsAt(b, start, Header(i), 60);
    SitsAt(b, start, Header(i), 61);
    FlagBit(i.high, i.low);
  }

  lemma {:induction false} FlagBit(high: Byte, low: Byte)
    ensures Extended(high as int * 0x100 + low as int) <==> high / 0x40 % 2 == 1
  {
    assert (high as int * 0x100 + low as int) / 0x4000 == high as int / 0x40;
  }

  /** Where the parts of a written entry lie. */
  lemma {:induction false} EntryParts(b: Bytes, version: nat, start: nat, i: Item)
    requires WellFormed(i, version) && version in {2, 3} && Sits(b, start, WriteEntry(i))
    ensures var h := |Header(i)|;
            var n := |Utf8.Encode(i.name)|;
            && Sits(b, start, Header(i)) && Sits(b, start + h, Utf8.Encode(i.name))
            && |WriteEntry(i)| == Padded(h + n + 1) > h + n
            && start + h + n < |b| && b[start + h + n] == 0
  {
    hide Header, WellFormed, Utf8.Encode, Zeros, Padded, Sits;
    var (h, name) := (Header(i), Utf8.Encode(i.name));
    var unpadded := |h| + |name|;
    PaddingFits(unpadded);
    var zeros := Zeros(Padded(unpadded + 1) - unpadded);
    ZerosAreNul(Padded(unpadded + 1) - unpadded);
    SitsSplit(b, start, h, name + zeros);
    SitsSplit(b, start + |h|, name, zeros);
    SitsAt(b, start + |h| + |name|, zeros, 0);
  }

  lemma {:induction false} NameRead(b: Bytes, at: nat, name: string)
    requires '\0' !in name && Sits(b, at, Utf8.Encode(name))
    requires at + |Utf8.Encode(name)| < |b| && b[at + |Utf8.Encode(name)|] == 0
    ensures Nul(b, at) == at + |Utf8.Encode(name)|
    ensures b[at..at + |Utf8.Encode(name)|] == Utf8.Encode(name) && Utf8.Decode(Utf8.Encode(name)) == Some(name)
  {
    hide Nul, Utf8.Encode, Utf8.Decode;
    Utf8.NoNul(name);
    Utf8.DecodeUndoesEncode(name);
    NulAfter(b, at, Utf8.Encode(name));
  }

  lemma {:induction false} EntryRoundTrip(b: Bytes, version: nat, start: nat, bodyEnd: nat, i: Item)
    requires WellFormed(i, version) && version in {2, 3}
    requires Sits(b, start, WriteEntry(i)) && start + |WriteEntry(i)| <= bodyEnd <= |b|
    ensures ReadEntry(b, version, start, bodyEnd) ==
            if Acceptable(i.name) then Some(Entry(Unmarked(i.name), start + |WriteEntry(i)|)) else None
  {
    hide Header, WriteEntry, Nul, Extended, U16, Padded, OrdinaryPath, Unmarked, Sits, Utf8.Encode, Utf8.Decode;
    var name := Utf8.Encode(i.name);
    EntryParts(b, version, start, i);
    HeaderRead(b, version, start, i);
    NameRead(b, start + |Header(i)|, i.name);
  }

  predicate AllWellFormed(items: seq<Item>, version: nat) {
    items != [] ==> WellFormed(items[0], version) && AllWellFormed(items[1..], version)
  }

  predicate AllAcceptable(items: seq<Item>) {
    items != [] ==> Acceptable(items[0].name) && AllAcceptable(items[1..])
  }

  function Readings(items: seq<Item>): (r: seq<string>)
    ensures |r| == |items| && forall k :: 0 <= k < |items| ==> r[k] == Unmarked(items[k].name)
  {
    if items == [] then [] else [Unmarked(items[0].name)] + Readings(items[1..])
  }

  lemma {:induction false} EntriesRoundTrip(b: Bytes, version: nat, start: nat, bodyEnd: nat, items: seq<Item>)
    requires AllWellFormed(items, version) && version in {2, 3}
    requires Sits(b, start, WriteEntries(items)) && start + |WriteEntries(items)| <= bodyEnd <= |b|
    ensures ReadEntries(b, version, |items|, start, bodyEnd) ==
            if AllAcceptable(items) then Some(Readings(items)) else None
    decreases |items|
  {
    hide Acceptable, WellFormed, ReadEntry, WriteEntry, Sits;
    if items != [] {
      var (e, rest) := (WriteEntry(items[0]), WriteEntries(items[1..]));
      SitsSplit(b, start, e, rest);
      EntryRoundTrip(b, version, start, bodyEnd, items[0]);
      EntriesRoundTrip(b, version, start + |e|, bodyEnd, items[1..]);
    }
  }

  lemma {:induction false} WordRoundTrip(b: Bytes, at: nat, n: nat)
    requires n < 0x1_0000_0000 && Sits(b, at, Write32(n))
    ensures U32(b, at) == n
  {
    SitsAt(b, at, Write32(n), 0);
    SitsAt(b, at, Write32(n), 1);
    SitsAt(b, at, Write32(n), 2);
    SitsAt(b, at, Write32(n), 3);
    var a := n / 0x100;
    var d := a / 0x100;
    assert d == n / 0x1_0000 && d / 0x100 == n / 0x100_0000;
  }

  lemma {:induction false} SignatureSigns(b: Bytes)
    requires Sits(b, 0, SIGNATURE)
    ensures |b| >= 4 && Signed(b)
  {
    assert b[..4] == b[0..0 + |SIGNATURE|];
    forall k | 0 <= k < 4 ensures b[k] == SIGNATURE[k] { assert b[..4][k] == b[k]; }
  }

  lemma {:induction false} FrameRoundTrip(sha1: Bytes -> Digest, version: nat, items: seq<Item>, extensions: Bytes)
    requires version in {2, 3} && |items| <= COUNT_LIMIT
    ensures var b := WriteIndex(sha1, version, items, extensions);
            && Framed(sha1, b) && U32(b, 4) == version && U32(b, 8) == |items|
            && |b| - TRAILER == |Body(version, items, extensions)|
            && Sits(b, 12, WriteEntries(items)) && 12 + |WriteEntries(items)| <= |b| - TRAILER
  {
    hide Signed, U32, WriteEntries;
    var body := Body(version, items, extensions);
    var b := WriteIndex(sha1, version, items, extensions);
    assert b[..|b| - TRAILER] == body && b[|b| - TRAILER..] == sha1(body);
    assert b[0..0 + |b|] == b;
    SitsSplit(b, 0, body, sha1(body));
    SitsSplit(b, 0, SIGNATURE + (Write32(version) + Write32(|items|)), WriteEntries(items) + extensions);
    SitsSplit(b, 0, SIGNATURE, Write32(version) + Write32(|items|));
    SignatureSigns(b);
    SitsSplit(b, 4, Write32(version), Write32(|items|));
    SitsSplit(b, 12, WriteEntries(items), extensions);
    WordRoundTrip(b, 4, version);
    WordRoundTrip(b, 8, |items|);
  }

  /** The names a writer stored. */
  function Written(items: seq<Item>): set<string> {
    set k | 0 <= k < |items| :: items[k].name
  }

  /** Reading a written index gives its names, each without a leading byte order mark; one name the
      reader cannot accept refuses the index. */
  lemma {:induction false} ReaderUndoesWriter(sha1: Bytes -> Digest, version: nat, items: seq<Item>, extensions: Bytes)
    requires version in {2, 3} && |items| <= COUNT_LIMIT && AllWellFormed(items, version)
    ensures ReadIndex(sha1, WriteIndex(sha1, version, items, extensions)) ==
            if AllAcceptable(items) then Some(Names(Readings(items))) else None
  {
    hide Framed, Sits, ReadEntries, U32, Body, WriteIndex, WriteEntries, AllAcceptable, AllWellFormed, Names;
    FrameRoundTrip(sha1, version, items, extensions);
    var b := WriteIndex(sha1, version, items, extensions);
    EntriesRoundTrip(b, version, 12, |b| - TRAILER, items);
  }

  predicate Marked(s: string) {
    s != "" && s[0] == BOM
  }

  lemma {:induction false} LongestName(items: seq<Item>) returns (m: nat)
    requires exists k :: 0 <= k < |items| && Marked(items[k].name)
    ensures m < |items| && Marked(items[m].name)
    ensures forall k :: 0 <= k < |items| && Marked(items[k].name) ==> |items[k].name| <= |items[m].name|
  {
    var k :| 0 <= k < |items| && Marked(items[k].name);
    m := k;
    var i := 0;
    while i < |items|
      invariant i <= |items| && m < |items| && Marked(items[m].name)
      invariant forall j :: 0 <= j < i && Marked(items[j].name) ==> |items[j].name| <= |items[m].name|
    {
      if Marked(items[i].name) && |items[i].name| > |items[m].name| { m := i; }
      i := i + 1;
    }
  }

  lemma {:induction false} SameNamesIff(items: seq<Item>)
    ensures Names(Readings(items)) == Written(items) <==> forall k :: 0 <= k < |items| ==> !Marked(items[k].name)
  {
    var read := Readings(items);
    if forall k :: 0 <= k < |items| ==> !Marked(items[k].name) {
      forall n ensures n in Names(read) <==> n in Written(items) {
        if n in Names(read) {
          var k :| 0 <= k < |read| && read[k] == n;
          assert items[k].name == n;
        }
        if n in Written(items) {
          var k :| 0 <= k < |items| && items[k].name == n;
          assert read[k] == n;
        }
      }
    } else {
      var m := LongestName(items);
      assert items[m].name in Written(items);
      forall k | 0 <= k < |read| ensures read[k] != items[m].name {
        if Marked(items[k].name) { assert |read[k]| < |items[m].name|; }
      }
    }
  }

  /** The reader returns exactly the written path set if and only if it accepts every name and no
      name begins with a byte order mark. */
  lemma {:induction false} ExactPathsIff(sha1: Bytes -> Digest, version: nat, items: seq<Item>, extensions: Bytes)
    requires version in {2, 3} && |items| <= COUNT_LIMIT && AllWellFormed(items, version)
    ensures ReadIndex(sha1, WriteIndex(sha1, version, items, extensions)) == Some(Written(items)) <==>
            AllAcceptable(items) && forall k :: 0 <= k < |items| ==> !Marked(items[k].name)
  {
    hide AllAcceptable, AllWellFormed, Names, Written, Readings, ReadIndex, WriteIndex, Marked;
    ReaderUndoesWriter(sha1, version, items, extensions);
    SameNamesIff(items);
  }

  /** A path that the reader accepts and then reports under another name. */
  lemma {:induction false} AMarkedNameIsMisread(sha1: Bytes -> Digest) returns (items: seq<Item>)
    ensures AllWellFormed(items, 2) && AllAcceptable(items)
    ensures Written(items) == {[BOM, 'a']}
    ensures ReadIndex(sha1, WriteIndex(sha1, 2, items, [])) == Some({"a"})
  {
    var item := Item(Zeros(60), 0, 2, [], [BOM, 'a']);
    items := [item];
    ZerosAreNul(60);
    assert items[1..] == [];
    MarkedIsAcceptable();
    forall n ensures n in Written(items) <==> n == item.name { assert items[0].name == item.name; }
    ReaderUndoesWriter(sha1, 2, items, []);
    OneName("a");
    assert Readings(items) == ["a"];
  }

  lemma {:induction false} OneName(s: string)
    ensures Names([s]) == {s}
  {
    NamesGrow([], s);
    NoNames();
    assert [] + [s] == [s];
  }

  lemma {:induction false} MarkedIsAcceptable()
    ensures Acceptable([BOM, 'a']) && Unmarked([BOM, 'a']) == "a"
  {
    Utf8.EncodeLength([BOM, 'a']);
    Utf8.SizeBound([BOM, 'a']);
    assert [BOM, 'a'][1..] == "a";
    assert Segments("a") == ["a"] by { assert "a"[1..] == ""; assert [] + ['a'] == "a"; }
  }
}
