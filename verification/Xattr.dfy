/** The metadata helper: collecting extended attributes from a name list, serializing them, and the
    string comparison that decides whether a copy of permissions succeeded. */
module Xattr {
  import opened Base64
  import opened Decimals
  import opened Lexical
  import opened Octets
  import opened Sequences
  import opened Wrappers

  const COUNT_LIMIT := 64
  const VALUES_LIMIT := 65_536
  const NAMES_LIMIT := 16_384
  const NAME_LIMIT := 255
  const JSON_LIMIT := 262_144
  const ENCODED_LIMIT := 87_385

  type Id = n: int | 0 <= n < 0x1_0000_0000

  datatype Attribute = Attribute(name: Bytes, value: Bytes)
  datatype Metadata = Metadata(mode: nat, uid: Id, gid: Id, attributes: seq<Attribute>)

  // ----- collecting -----

  /** Names as C compares them: byte order, a prefix first. */
  function Key(a: Attribute): string {
    Chars(a.name)
  }

  function Chars(b: Bytes): string {
    if b == [] then "" else [b[0] as char] + Chars(b[1..])
  }

  /** The namespaces this helper may copy. */
  predicate Copyable(name: Bytes, directory: bool) {
    || ("user." <= Chars(name) && |name| > 5)
    || Chars(name) == "system.posix_acl_access"
    || (directory && Chars(name) == "system.posix_acl_default")
  }

  /** The file whose attributes are read: the kernel's name list, and each attribute's value. */
  datatype Source = Source(names: Bytes, value: Bytes -> Option<Bytes>, directory: bool)

  /** Distance to the first NUL, at most to the end. */
  function Length(names: Bytes, from: nat): (n: nat)
    requires from <= |names|
    ensures from + n <= |names|
    decreases |names| - from
  {
    if from == |names| || names[from] == 0 then 0 else 1 + Length(names, from + 1)
  }

  datatype Step = Step(attribute: Attribute, next: nat)

  /** One name and its value; None when any check fails. */
  function ReadOne(s: Source, from: nat, count: nat, total: nat): (r: Option<Step>)
    requires from < |s.names|
    ensures r.Some? ==> r.value.next == from + |r.value.attribute.name| + 1 <= |s.names|
    ensures r.Some? ==> count < COUNT_LIMIT && total + |r.value.attribute.value| <= VALUES_LIMIT
  {
    var n := Length(s.names, from);
    var name := s.names[from..from + n];
    if n == 0 || n > NAME_LIMIT || from + n >= |s.names| || count >= COUNT_LIMIT || !Copyable(name, s.directory) then None
    else match s.value(name)
      case None => None
      case Some(value) => if total + |value| > VALUES_LIMIT then None else Some(Step(Attribute(name, value), from + n + 1))
  }

  /** The attributes in the order of the name list. */
  function Listed(s: Source, from: nat, count: nat, total: nat): Option<seq<Attribute>>
    requires from <= |s.names|
    decreases |s.names| - from
  {
    if from == |s.names| then Some([])
    else match ReadOne(s, from, count, total)
      case None => None
      case Some(step) =>
        match Listed(s, step.next, count + 1, total + |step.attribute.value|)
        case None => None
        case Some(rest) => Some([step.attribute] + rest)
  }

  predicate Distinct(list: seq<Attribute>) {
    forall i, j :: 0 <= i < j < |list| ==> list[i].name != list[j].name
  }

  /** Sorted by name, and refused if two names are equal. */
  function Collected(s: Source): Option<seq<Attribute>> {
    if |s.names| > NAMES_LIMIT then None
    else match Listed(s, 0, 0, 0)
      case None => None
      case Some(list) => if Distinct(list) then Some(Sort(list, Key)) else None
  }

  lemma {:induction false} CharsInjective(a: Bytes, b: Bytes)
    requires Chars(a) == Chars(b)
    ensures a == b
  {
    if a != [] && b != [] {
      assert Chars(a)[0] == Chars(b)[0] && Chars(a)[1..] == Chars(b)[1..];
      CharsInjective(a[1..], b[1..]);
      SameList(a, b);
    }
  }

  lemma {:induction false} DistinctIffKeys(list: seq<Attribute>)
    ensures Distinct(list) <==> DistinctKeys(list, Key)
  {
    if Distinct(list) {
      forall i, j | 0 <= i < j < |list| ensures Key(list[i]) != Key(list[j]) {
        if Key(list[i]) == Key(list[j]) { CharsInjective(list[i].name, list[j].name); }
      }
    }
  }

  /** The helper's loop over the name list, then the sort and the check of neighbours. */
  method Collect(s: Source) returns (r: Option<seq<Attribute>>)
    ensures r == Collected(s)
  {
    if |s.names| > NAMES_LIMIT { return None; }
    var list := ReadList(s);
    if list.None? { return None; }
    var sorted := Sort(list.value, Key);
    DistinctIffKeys(list.value);
    DistinctIffNeighboursDiffer(list.value, Key);
    var ok := NoRepeats(sorted);
    return if ok then Some(sorted) else None;
  }

  method NoRepeats(sorted: seq<Attribute>) returns (ok: bool)
    ensures ok <==> NeighboursDiffer(sorted, Key)
  {
    hide Key;
    var i := 1;
    while i < |sorted|
      invariant i >= 1
      invariant forall j, k :: 0 <= j < k < i && k < |sorted| && k == j + 1 ==> Key(sorted[j]) != Key(sorted[k])
    {
      if Key(sorted[i - 1]) == Key(sorted[i]) { return false; }
      i := i + 1;
    }
    return true;
  }

  // ----- what is collected, told from the name list -----

  /** A list of names as the kernel writes it: every name with a NUL after it. */
  function NameList(list: seq<Attribute>): Bytes {
    if list == [] then [] else list[0].name + ([0] + NameList(list[1..]))
  }

  /** The bytes of an ASCII text. */
  predicate Spells(b: Bytes, text: string) {
    |b| == |text| && forall k :: 0 <= k < |b| ==> b[k] as char == text[k]
  }

  /** A name the helper may copy, and the value the file has under it. */
  predicate Rightful(s: Source, a: Attribute) {
    && 1 <= |a.name| <= 255 && 0 !in a.name
    && (|| (|a.name| > 5 && Spells(a.name[..5], "user."))
        || Spells(a.name, "system.posix_acl_access")
        || (s.directory && Spells(a.name, "system.posix_acl_default")))
    && s.value(a.name) == Some(a.value)
  }

  lemma {:induction false} CharsAt(b: Bytes)
    ensures |Chars(b)| == |b| && forall k :: 0 <= k < |b| ==> Chars(b)[k] == b[k] as char
  {
    if b != [] { CharsAt(b[1..]); }
  }

  lemma {:induction false} SpellsIff(b: Bytes, text: string)
    ensures Spells(b, text) <==> Chars(b) == text
  {
    CharsAt(b);
  }

  lemma {:induction false} BeginsIff(b: Bytes, n: nat, text: string)
    requires n == |text| <= |b|
    ensures Spells(b[..n], text) <==> text <= Chars(b)
  {
    CharsAt(b);
  }

  lemma {:induction false} CopyableIff(name: Bytes, directory: bool)
    ensures Copyable(name, directory) <==>
            || (|name| > 5 && Spells(name[..5], "user."))
            || Spells(name, "system.posix_acl_access")
            || (directory && Spells(name, "system.posix_acl_default"))
  {
    hide Spells, Chars;
    SpellsIff(name, "system.posix_acl_access");
    SpellsIff(name, "system.posix_acl_default");
    if |name| > 5 { BeginsIff(name, 5, "user."); }
  }

  lemma {:induction false} LengthIs(names: Bytes, from: nat)
    requires from <= |names|
    ensures var n := Length(names, from);
            0 !in names[from..from + n] && (from + n < |names| ==> names[from + n] == 0)
    decreases |names| - from
  {
    if from < |names| && names[from] != 0 {
      LengthIs(names, from + 1);
      var n := Length(names, from + 1);
      assert names[from..from + 1 + n] == [names[from]] + names[from + 1..from + 1 + n];
    }
  }

  /** A list the loop can pass from here on. */
  ghost predicate Passes(s: Source, from: nat, count: nat, total: nat, list: seq<Attribute>)
    requires from <= |s.names|
  {
    && s.names[from..] == NameList(list)
    && (forall k :: 0 <= k < |list| ==> Rightful(s, list[k]))
    && count + |list| <= 64 && total + ValuesSize(list) <= 65536
  }

  lemma {:induction false} NextName(names: Bytes, from: nat, name: Bytes, rest: Bytes)
    requires from <= |names| && names[from..] == name + ([0] + rest) && 0 !in name
    ensures from < |names| && Length(names, from) == |name| && from + |name| < |names|
    ensures names[from..from + |name|] == name && names[from + |name| + 1..] == rest
    decreases |name|
  {
    var tail := names[from..];
    assert |tail| > |name|;
    if name == [] {
      assert names[from] == tail[0] == 0;
      assert tail[1..] == rest;
    } else {
      assert names[from] == tail[0] == name[0] && names[from + 1..] == tail[1..];
      assert tail[1..] == name[1..] + ([0] + rest);
      NextName(names, from + 1, name[1..], rest);
      assert names[from..from + |name|] == [names[from]] + names[from + 1..from + |name|];
    }
  }

  lemma {:induction false} ReadsName(s: Source, from: nat, count: nat, total: nat, a: Attribute, rest: Bytes)
    requires from <= |s.names| && s.names[from..] == a.name + ([0] + rest) && Rightful(s, a)
    requires count < 64 && total + |a.value| <= 65536
    ensures from < |s.names| && ReadOne(s, from, count, total) == Some(Step(a, from + |a.name| + 1))
    ensures from + |a.name| + 1 <= |s.names| && s.names[from + |a.name| + 1..] == rest
  {
    NextName(s.names, from, a.name, rest);
    CopyableIff(a.name, s.directory);
    hide Copyable, Spells, Length;
  }

  lemma {:induction false} PassedIsListed(s: Source, from: nat, count: nat, total: nat, list: seq<Attribute>)
    requires from <= |s.names| && Passes(s, from, count, total, list)
    ensures Listed(s, from, count, total) == Some(list)
    decreases |list|
  {
    hide ReadOne, Rightful;
    if list == [] {
      assert from == |s.names|;
    } else {
      var (a, later) := (list[0], list[1..]);
      ReadsName(s, from, count, total, a, NameList(later));
      forall k | 0 <= k < |later| ensures Rightful(s, later[k]) { assert later[k] == list[k + 1]; }
      PassedIsListed(s, from + |a.name| + 1, count + 1, total + |a.value|, later);
      HeadAndTail(list);
    }
  }

  lemma {:induction false} NameRead(s: Source, from: nat, count: nat, total: nat)
    requires from < |s.names| && ReadOne(s, from, count, total).Some?
    ensures var step := ReadOne(s, from, count, total).value;
            Rightful(s, step.attribute) && s.names[from..] == step.attribute.name + ([0] + s.names[step.next..])
  {
    LengthIs(s.names, from);
    CopyableIff(s.names[from..from + Length(s.names, from)], s.directory);
    hide Copyable, Spells, Length;
  }

  lemma {:induction false} ListedPasses(s: Source, from: nat, count: nat, total: nat)
    requires from <= |s.names| && count <= 64 && total <= 65536 && Listed(s, from, count, total).Some?
    ensures Passes(s, from, count, total, Listed(s, from, count, total).value)
    decreases |s.names| - from
  {
    hide ReadOne, Rightful;
    if from < |s.names| {
      var step := ReadOne(s, from, count, total).value;
      var a := step.attribute;
      NameRead(s, from, count, total);
      ListedPasses(s, step.next, count + 1, total + |a.value|);
      var later := Listed(s, step.next, count + 1, total + |a.value|).value;
      var list := Listed(s, from, count, total).value;
      assert list == [a] + later && list[1..] == later;
    }
  }

  /** The kernel's list is the names of these attributes, each with a NUL: at most 64, each copyable and of 1
      to 255 bytes, no name twice, with the file's own values, of 65536 bytes in all. */
  ghost predicate Presents(s: Source, list: seq<Attribute>) {
    && s.names == NameList(list) && |s.names| <= 16384
    && (forall k :: 0 <= k < |list| ==> Rightful(s, list[k]))
    && |list| <= 64 && ValuesSize(list) <= 65536
    && forall i, j :: 0 <= i < j < |list| ==> list[i].name != list[j].name
  }

  /** Attributes are collected exactly if the file presents some, and then it is they, sorted by name. */
  lemma {:induction false} CollectedIff(s: Source, r: seq<Attribute>)
    ensures Collected(s) == Some(r) <==>
            exists list :: Presents(s, list) && multiset(r) == multiset(list) && Increasing(r, Key)
  {
    hide Rightful, Listed, NameList, ValuesSize, Sort, Increasing;
    assert s.names[0..] == s.names;
    if Collected(s) == Some(r) {
      ListedPasses(s, 0, 0, 0);
      var list := Listed(s, 0, 0, 0).value;
      DistinctIffKeys(list);
      SortIncreasing(list, Key);
      assert Presents(s, list);
    }
    forall list | Presents(s, list) && multiset(r) == multiset(list) && Increasing(r, Key)
      ensures Collected(s) == Some(r)
    {
      PassedIsListed(s, 0, 0, 0, list);
      DistinctIffKeys(list);
      SortIncreasing(list, Key);
      IncreasingUnique(r, Sort(list, Key), Key);
    }
  }

  lemma {:induction false} ReadNext(done: seq<Attribute>, s: Source, from: nat, total: nat)
    requires from < |s.names|
    ensures Prepend(done, Listed(s, from, |done|, total)) ==
            match ReadOne(s, from, |done|, total)
            case None => None
            case Some(step) =>
              Prepend(done + [step.attribute], Listed(s, step.next, |done| + 1, total + |step.attribute.value|))
  {
    var step := ReadOne(s, from, |done|, total);
    if step.Some? {
      var rest := Listed(s, step.value.next, |done| + 1, total + |step.value.attribute.value|);
      if rest.Some? { Associates(done, [step.value.attribute], rest.value); }
    }
  }

  lemma {:induction false} ReadEnds(done: seq<Attribute>, s: Source, total: nat)
    ensures Prepend([], Listed(s, 0, 0, 0)) == Listed(s, 0, 0, 0)
    ensures Prepend(done, Listed(s, |s.names|, |done|, total)) == Some(done)
  {
    assert done + [] == done;
    if Listed(s, 0, 0, 0).Some? { assert [] + Listed(s, 0, 0, 0).value == Listed(s, 0, 0, 0).value; }
  }

  method ReadList(s: Source) returns (r: Option<seq<Attribute>>)
    ensures r == Listed(s, 0, 0, 0)
  {
    hide Listed, Prepend, ReadOne;
    var offset: nat, total: nat := 0, 0;
    var done: seq<Attribute> := [];
    ghost var whole := Listed(s, 0, 0, 0);
    ReadEnds([], s, 0);
    while offset < |s.names|
      invariant offset <= |s.names|
      invariant whole == Prepend(done, Listed(s, offset, |done|, total))
    {
      var step := ReadOne(s, offset, |done|, total);
      ReadNext(done, s, offset, total);
      if step.None? { return None; }
      done := done + [step.value.attribute];
      total := total + |step.value.attribute.value|;
      offset := step.value.next;
    }
    ReadEnds(done, s, total);
    return Some(done);
  }

  // ----- serializing -----

  /** One attribute: an array of two base64 strings. */
  function Item(a: Attribute): string {
    "[\"" + (Encode(a.name) + (['\"'] + (",\"" + (Encode(a.value) + (['\"'] + "]")))))
  }

  /** The attributes from here on, and the end of the object. */
  function Items(list: seq<Attribute>, first: bool): string {
    if list == [] then "]}" else ((if first then "" else ",") + Item(list[0])) + Items(list[1..], false)
  }

  function Json(m: Metadata): string {
    "{\"mode\":" + (Decimal(m.mode % 4096) + ([','] + ("\"uid\":" + (Decimal(m.uid) + ([','] +
    ("\"gid\":" + (Decimal(m.gid) + ([','] + ("\"xattrs\":[" + Items(m.attributes, true))))))))))
  }

  /** The text, spelled out: permission bits, owner, group, and a pair of strings for each attribute. */
  lemma {:induction false} JsonSpelled(m: Metadata)
    ensures Json(m) == "{\"mode\":" + Decimal(m.mode % 4096) + ",\"uid\":" + Decimal(m.uid) + ",\"gid\":" + Decimal(m.gid)
                       + ",\"xattrs\":[" + Items(m.attributes, true)
  {
    hide Decimal, Items;
    var (o, u, g, r) := (Decimal(m.mode % 4096), Decimal(m.uid), Decimal(m.gid), Items(m.attributes, true));
    FourFields("{\"mode\":", o, "\"uid\":", u, "\"gid\":", g, "\"xattrs\":[", r);
    assert "," + "\"uid\":" == ",\"uid\":" && "," + "\"gid\":" == ",\"gid\":" && "," + "\"xattrs\":[" == ",\"xattrs\":[";
  }

  lemma {:induction false} ItemsSpelled(list: seq<Attribute>, first: bool)
    ensures list == [] ==> Items(list, first) == "]}"
    ensures list != [] ==>
              Items(list, first) == (if first then "" else ",") + "[\"" + Encode(list[0].name) + "\",\"" + Encode(list[0].value) + "\"]"
                                    + Items(list[1..], false)
  {
    hide Encode;
    if list != [] {
      ItemParts(if first then "" else ",", "[\"", list[0], true);
      assert "\"" + "]" == "\"]";
    }
  }

  // ----- no check of a buffer can fire -----

  function NamesSize(list: seq<Attribute>): nat {
    if list == [] then 0 else |list[0].name| + 1 + NamesSize(list[1..])
  }

  function ValuesSize(list: seq<Attribute>): nat {
    if list == [] then 0 else |list[0].value| + ValuesSize(list[1..])
  }

  /** Bounds of a list that passed the checks of the loop. */
  predicate Modest(list: seq<Attribute>) {
    |list| <= COUNT_LIMIT && NamesSize(list) <= NAMES_LIMIT && ValuesSize(list) <= VALUES_LIMIT
  }

  lemma {:induction false} ListedIsModest(s: Source, from: nat, count: nat, total: nat)
    requires from <= |s.names| && count <= COUNT_LIMIT && total <= VALUES_LIMIT
    requires Listed(s, from, count, total).Some?
    ensures var list := Listed(s, from, count, total).value;
            && count + |list| <= COUNT_LIMIT
            && NamesSize(list) == |s.names| - from
            && total + ValuesSize(list) <= VALUES_LIMIT
    decreases |s.names| - from
  {
    hide ReadOne;
    if from < |s.names| {
      var step := ReadOne(s, from, count, total).value;
      ListedIsModest(s, step.next, count + 1, total + |step.attribute.value|);
    }
  }

  lemma {:induction false} InsertSizes(x: Attribute, list: seq<Attribute>)
    ensures NamesSize(Insert(x, list, Key)) == |x.name| + 1 + NamesSize(list)
    ensures ValuesSize(Insert(x, list, Key)) == |x.value| + ValuesSize(list)
  {
    if list != [] && Less(Key(list[0]), Key(x)) {
      InsertSizes(x, list[1..]);
      assert Insert(x, list, Key)[1..] == Insert(x, list[1..], Key);
    } else {
      assert Insert(x, list, Key)[1..] == list;
    }
  }

  lemma {:induction false} SortSizes(list: seq<Attribute>)
    ensures NamesSize(Sort(list, Key)) == NamesSize(list) && ValuesSize(Sort(list, Key)) == ValuesSize(list)
  {
    if list != [] {
      SortSizes(list[1..]);
      InsertSizes(list[0], Sort(list[1..], Key));
    }
  }

  lemma {:induction false} CollectedIsModest(s: Source)
    requires Collected(s).Some?
    ensures Modest(Collected(s).value)
  {
    ListedIsModest(s, 0, 0, 0);
    SortSizes(Listed(s, 0, 0, 0).value);
  }

  lemma {:induction false} EncodedSize(b: Bytes)
    ensures 3 * |Encode(b)| <= 4 * |b| + 8
  {
    EncodeLength(b);
  }

  lemma {:induction false} ItemsSize(list: seq<Attribute>, first: bool)
    ensures 3 * |Items(list, first)| <= 4 * (NamesSize(list) + ValuesSize(list)) + 40 * |list| + 6
  {
    if list != [] {
      EncodedSize(list[0].name);
      EncodedSize(list[0].value);
      ItemsSize(list[1..], false);
    }
  }

  lemma {:induction false} JsonSize(m: Metadata)
    requires Modest(m.attributes)
    ensures |Json(m)| < JSON_LIMIT
  {
    ItemsSize(m.attributes, true);
    OctalTwelve();
    DecimalShort(m.mode % 4096, 12);
    DecimalShort(m.uid, 12);
    DecimalShort(m.gid, 12);
  }

  lemma {:induction false} EachModest(list: seq<Attribute>, k: nat)
    requires Modest(list) && k < |list|
    ensures |Encode(list[k].name)| < ENCODED_LIMIT && |Encode(list[k].value)| < ENCODED_LIMIT
  {
    PartOfSize(list, k);
    EncodeLength(list[k].name);
    EncodeLength(list[k].value);
  }

  lemma {:induction false} PartOfSize(list: seq<Attribute>, k: nat)
    requires k < |list|
    ensures |list[k].name| <= NamesSize(list) && |list[k].value| <= ValuesSize(list)
  {
    if k > 0 { PartOfSize(list[1..], k - 1); }
  }

  // ----- the serializer as it is written -----

  /** Every encoded string fits its buffer and the whole text fits its own. */
  predicate Fits(m: Metadata) {
    |Json(m)| < JSON_LIMIT && AllEncoded(m.attributes)
  }

  predicate AllEncoded(list: seq<Attribute>) {
    list != [] ==>
      && |Encode(list[0].name)| < ENCODED_LIMIT && |Encode(list[0].value)| < ENCODED_LIMIT
      && AllEncoded(list[1..])
  }

  lemma {:induction false} ModestAllEncoded(all: seq<Attribute>, from: nat)
    requires Modest(all) && from <= |all|
    ensures AllEncoded(all[from..])
    decreases |all| - from
  {
    if from < |all| {
      EachModest(all, from);
      ModestAllEncoded(all, from + 1);
      assert all[from..][1..] == all[from + 1..];
    }
  }

  /** For whatever the collector accepts, no check of the serializer can fire. */
  lemma {:induction false} CollectedFits(s: Source, mode: nat, uid: Id, gid: Id)
    requires Collected(s).Some?
    ensures Fits(Metadata(mode, uid, gid, Collected(s).value))
  {
    var list := Collected(s).value;
    CollectedIsModest(s);
    JsonSize(Metadata(mode, uid, gid, list));
    ModestAllEncoded(list, 0);
    assert list[0..] == list;
  }

  /** A text buffer of fixed size, as the helper fills it. */
  class Buffer {
    var text: string

    constructor ()
      ensures text == ""
    {
      text := "";
    }

    method Append(more: string) returns (ok: bool)
      requires |text| < JSON_LIMIT
      modifies this
      ensures ok <==> |old(text)| + |more| < JSON_LIMIT
      ensures text == if ok then old(text) + more else old(text)
    {
      if |more| >= JSON_LIMIT - |text| { return false; }
      text := text + more;
      return true;
    }

    /** Encodes into the second buffer and appends from there. */
    method AppendEncoded(b: Bytes) returns (ok: bool)
      requires |text| < JSON_LIMIT
      modifies this
      ensures ok <==> |Encode(b)| < ENCODED_LIMIT && |old(text)| + |Encode(b)| < JSON_LIMIT
      ensures text == if ok then old(text) + Encode(b) else old(text)
    {
      var encoded := Write(b, ENCODED_LIMIT);
      if encoded.None? { return false; }
      ok := Append(encoded.value);
    }

    /** One attribute, five appends. */
    method AppendItem(a: Attribute, first: bool) returns (ok: bool)
      requires |text| < JSON_LIMIT
      modifies this
      ensures ok <==> && |Encode(a.name)| < ENCODED_LIMIT && |Encode(a.value)| < ENCODED_LIMIT
                      && |old(text)| + |(if first then "" else ",") + Item(a)| < JSON_LIMIT
      ensures ok ==> text == old(text) + ((if first then "" else ",") + Item(a)) && |text| < JSON_LIMIT
    {
      ghost var start := text;
      ItemParts(start, if first then "[\"" else ",[\"", a, first);
      ok := Append(if first then "[\"" else ",[\"");
      if ok { ok := AppendEncoded(a.name); }
      if ok { ok := Append("\",\""); }
      if ok { ok := AppendEncoded(a.value); }
      if ok { ok := Append("\"]"); }
    }
  }

  lemma {:induction false} ItemParts(x: string, opening: string, a: Attribute, first: bool)
    requires opening == if first then "[\"" else ",[\""
    ensures x + opening + Encode(a.name) + "\",\"" + Encode(a.value) + "\"]" == x + ((if first then "" else ",") + Item(a))
    ensures |(if first then "" else ",") + Item(a)| == |opening| + |Encode(a.name)| + 3 + |Encode(a.value)| + 2
  {
    hide Encode;
  }

  function Header(m: Metadata): string {
    "{\"mode\":" + Decimal(m.mode % 4096) + ",\"uid\":" + Decimal(m.uid) + ",\"gid\":" + Decimal(m.gid) + ",\"xattrs\":["
  }

  lemma {:induction false} HeaderThenItems(m: Metadata)
    ensures Header(m) + Items(m.attributes, true) == Json(m)
  {
    var (o, u, g, r) := (Decimal(m.mode % 4096), Decimal(m.uid), Decimal(m.gid), Items(m.attributes, true));
    hide Decimal, Items;
    FourFields("{\"mode\":", o, "\"uid\":", u, "\"gid\":", g, "\"xattrs\":[", r);
    assert ",\"uid\":" == [','] + "\"uid\":" && ",\"gid\":" == [','] + "\"gid\":" && ",\"xattrs\":[" == [','] + "\"xattrs\":[";
  }

  lemma {:induction false} FourFields(k: string, o: string, l: string, u: string, n: string, g: string, x: string, r: string)
    ensures (k + o + ([','] + l) + u + ([','] + n) + g + ([','] + x)) + r ==
            k + (o + ([','] + (l + (u + ([','] + (n + (g + ([','] + (x + r)))))))))
  {
    var c := [','];
    Associates(k + o + (c + l) + u + (c + n) + g, c + x, r);
    Associates(c, x, r);
    var r1 := c + (x + r);
    Associates(k + o + (c + l) + u + (c + n), g, r1);
    Associates(k + o + (c + l) + u, c + n, g + r1);
    Associates(c, n, g + r1);
    var r2 := c + (n + (g + r1));
    Associates(k + o + (c + l), u, r2);
    Associates(k + o, c + l, u + r2);
    Associates(c, l, u + r2);
    Associates(k, o, c + (l + (u + r2)));
  }

  lemma {:induction false} HeaderShort(m: Metadata)
    ensures |Header(m)| < 100
  {
    OctalTwelve();
    DecimalShort(m.mode % 4096, 12);
    DecimalShort(m.uid, 12);
    DecimalShort(m.gid, 12);
    hide Decimal;
  }

  lemma {:induction false} NextItem(x: string, list: seq<Attribute>, first: bool)
    requires list != []
    ensures x + Items(list, first) == (x + ((if first then "" else ",") + Item(list[0]))) + Items(list[1..], false)
  {
    Associates(x, (if first then "" else ",") + Item(list[0]), Items(list[1..], false));
  }

  method Serialize(m: Metadata) returns (r: Option<string>)
    ensures r == if Fits(m) then Some(Json(m)) else None
  {
    HeaderThenItems(m);
    HeaderShort(m);
    hide Header, Item, Json;
    var buffer := new Buffer();
    buffer.text := Header(m);
    ghost var rest := m.attributes;
    var i := 0;
    while i < |m.attributes|
      invariant i <= |m.attributes| && rest == m.attributes[i..] && |buffer.text| < JSON_LIMIT
      invariant buffer.text + Items(rest, i == 0) == Json(m)
      invariant AllEncoded(rest) == AllEncoded(m.attributes)
    {
      var a := m.attributes[i];
      assert rest[0] == a;
      NextItem(buffer.text, rest, i == 0);
      var ok := buffer.AppendItem(a, i == 0);
      if !ok { return None; }
      i, rest := i + 1, rest[1..];
    }
    var ok := buffer.Append("]}");
    return if ok then Some(buffer.text) else None;
  }

  function JsonBytes(s: string): Bytes {
    if s == "" then [] else [if s[0] < '\U{80}' then s[0] as Byte else 0] + JsonBytes(s[1..])
  }

  /** The final encoding can never be refused: its buffer has room for the text and two more. */
  method Output(json: string) returns (line: string)
    ensures line == Encode(JsonBytes(json)) + "\n"
  {
    var input := JsonBytes(json);
    EncodeLength(input);
    var capacity := (|input| + 2) / 3 * 4 + 2;
    var encoded := Write(input, capacity);
    line := encoded.value + "\n";
  }

  // ----- equal texts mean equal metadata -----

  lemma {:induction false} EncodeLetters(b: Bytes)
    ensures forall c :: c in Encode(b) ==> c != '\"' && c != '\0' && c != ','
    decreases |b|
  {
    if |b| >= 3 {
      EncodeLetters(b[3..]);
      LettersOf(Group(b[0], b[1], b[2]));
    } else if |b| == 2 {
      LettersOf(Group(b[0], b[1], 0));
    } else if |b| == 1 {
      LettersOf(Group(b[0], 0, 0));
    }
  }

  lemma {:induction false} LettersOf(g: nat)
    ensures forall w :: w > 0 ==> Digit(g, w) != '\"' && Digit(g, w) != '\0' && Digit(g, w) != ','
  {
  }

  lemma {:induction false} ItemOpen(a: Attribute, x: string)
    ensures Item(a) + x ==
            "[\"" + (Encode(a.name) + (['\"'] + (",\"" + (Encode(a.value) + (['\"'] + ("]" + x))))))
  {
    hide Encode;
    var (n, v) := (Encode(a.name), Encode(a.value));
    Associates("[\"", n + (['\"'] + (",\"" + (v + (['\"'] + "]")))), x);
    Associates(n, ['\"'] + (",\"" + (v + (['\"'] + "]"))), x);
    Associates(['\"'], ",\"" + (v + (['\"'] + "]")), x);
    Associates(",\"", v + (['\"'] + "]"), x);
    Associates(v, ['\"'] + "]", x);
    Associates(['\"'], "]", x);
  }

  lemma {:induction false} EncodeInjective(a: Bytes, b: Bytes)
    requires Encode(a) == Encode(b)
    ensures a == b
  {
    DecodeUndoesEncode(a);
    DecodeUndoesEncode(b);
  }

  lemma {:induction false} ItemCut(a: Attribute, b: Attribute, x: string, y: string)
    requires Item(a) + x == Item(b) + y
    ensures a == b && x == y
  {
    hide Encode, Item;
    ItemOpen(a, x);
    ItemOpen(b, y);
    EncodeLetters(a.name);
    EncodeLetters(b.name);
    EncodeLetters(a.value);
    EncodeLetters(b.value);
    var (va, vb) := (Encode(a.value) + (['\"'] + ("]" + x)), Encode(b.value) + (['\"'] + ("]" + y)));
    Cut("[\"", "[\"", Encode(a.name) + (['\"'] + (",\"" + va)), Encode(b.name) + (['\"'] + (",\"" + vb)));
    CutAtMark(Encode(a.name), Encode(b.name), '\"', ",\"" + va, ",\"" + vb);
    Cut(",\"", ",\"", va, vb);
    CutAtMark(Encode(a.value), Encode(b.value), '\"', "]" + x, "]" + y);
    Cut("]", "]", x, y);
    EncodeInjective(a.name, b.name);
    EncodeInjective(a.value, b.value);
  }

  lemma {:induction false} ItemBegins(a: Attribute)
    ensures Item(a) != "" && Item(a)[0] == '['
  {
  }

  lemma {:induction false} ItemsInjective(a: seq<Attribute>, b: seq<Attribute>, first: bool)
    requires Items(a, first) == Items(b, first)
    ensures a == b
    decreases |a|
  {
    ItemsBegin(a, first);
    ItemsBegin(b, first);
    if a != [] {
      hide Item;
      var lead := if first then "" else ",";
      Associates(lead, Item(a[0]), Items(a[1..], false));
      Associates(lead, Item(b[0]), Items(b[1..], false));
      Cut(lead, lead, Item(a[0]) + Items(a[1..], false), Item(b[0]) + Items(b[1..], false));
      ItemCut(a[0], b[0], Items(a[1..], false), Items(b[1..], false));
      ItemsInjective(a[1..], b[1..], false);
      SameList(a, b);
    }
  }

  lemma {:induction false} ItemsBegin(a: seq<Attribute>, first: bool)
    ensures Items(a, first) != "" && (Items(a, first)[0] == ']' <==> a == [])
  {
    if a != [] { ItemBegins(a[0]); }
  }

  lemma {:induction false} ItemHasNoNul(a: Attribute)
    ensures '\0' !in Item(a)
  {
    EncodeLetters(a.name);
    EncodeLetters(a.value);
    hide Encode;
  }

  lemma {:induction false} ItemsHaveNoNul(list: seq<Attribute>, first: bool)
    ensures '\0' !in Items(list, first)
  {
    if list != [] {
      ItemHasNoNul(list[0]);
      ItemsHaveNoNul(list[1..], false);
      hide Item;
    }
  }

  /** The text ends where C thinks it ends. */
  lemma {:induction false} JsonHasNoNul(m: Metadata)
    ensures '\0' !in Json(m)
  {
    DecimalDigits(m.mode % 4096);
    DecimalDigits(m.uid);
    DecimalDigits(m.gid);
    ItemsHaveNoNul(m.attributes, true);
    hide Decimal, Items;
    var (o, u, g, r) := (Decimal(m.mode % 4096), Decimal(m.uid), Decimal(m.gid), Items(m.attributes, true));
    var r1 := "\"gid\":" + (g + ([','] + ("\"xattrs\":[" + r)));
    var r2 := "\"uid\":" + (u + ([','] + r1));
    assert '\0' !in r1;
    assert '\0' !in r2;
  }

  /** The helper's comparison is true equality: same permission bits, owner, group, names and values. */
  lemma {:induction false} EqualTextsIff(a: Metadata, b: Metadata)
    ensures Json(a) == Json(b) <==>
            a.mode % 4096 == b.mode % 4096 && a.uid == b.uid && a.gid == b.gid && a.attributes == b.attributes
  {
    if Json(a) == Json(b) {
      hide Items;
      DecimalDigits(a.mode % 4096);
      DecimalDigits(b.mode % 4096);
      DecimalDigits(a.uid);
      DecimalDigits(b.uid);
      DecimalDigits(a.gid);
      DecimalDigits(b.gid);
      var (i, j) := ("\"xattrs\":[" + Items(a.attributes, true), "\"xattrs\":[" + Items(b.attributes, true));
      var (g, h) := ("\"gid\":" + (Decimal(a.gid) + ([','] + i)), "\"gid\":" + (Decimal(b.gid) + ([','] + j)));
      var (u, v) := ("\"uid\":" + (Decimal(a.uid) + ([','] + g)), "\"uid\":" + (Decimal(b.uid) + ([','] + h)));
      Cut("{\"mode\":", "{\"mode\":", Decimal(a.mode % 4096) + ([','] + u), Decimal(b.mode % 4096) + ([','] + v));
      NumberCut(a.mode % 4096, b.mode % 4096, u, v);
      Cut("\"uid\":", "\"uid\":", Decimal(a.uid) + ([','] + g), Decimal(b.uid) + ([','] + h));
      NumberCut(a.uid, b.uid, g, h);
      Cut("\"gid\":", "\"gid\":", Decimal(a.gid) + ([','] + i), Decimal(b.gid) + ([','] + j));
      NumberCut(a.gid, b.gid, i, j);
      Cut("\"xattrs\":[", "\"xattrs\":[", Items(a.attributes, true), Items(b.attributes, true));
      ItemsInjective(a.attributes, b.attributes, true);
    }
  }

  lemma {:induction false} NumberCut(m: nat, n: nat, x: string, y: string)
    requires Decimal(m) + ([','] + x) == Decimal(n) + ([','] + y)
    ensures m == n && x == y
  {
    DecimalDigits(m);
    DecimalDigits(n);
    CutAtMark(Decimal(m), Decimal(n), ',', x, y);
    DecimalInjective(m, n);
  }
}
