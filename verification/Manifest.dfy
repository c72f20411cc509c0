/** The directory-tree manifest of the Windows helper: the byte stream it feeds to its hash, as a
    unique encoding of the tree. */
module Manifest {
  import opened Decimals
  import opened Lexical
  import opened Octets
  import opened Sequences

  type Unit = u: int | 0 <= u < 0x1_0000
  type Text = seq<Unit>

  const DEPTH_LIMIT := 60
  const ENTRY_LIMIT := 10_000
  const BYTE_LIMIT := 64 * 1024 * 1024
  const NAME_LIMIT := 2048

  /** A volume serial number and a file index. */
  type Serial = n: int | 0 <= n < 0x1_0000_0000
  type Index = n: int | 0 <= n < 0x1_0000_0000_0000_0000

  /** A tree as the file system enumerates it. `pinned` stands for the checks made on the opened item,
      `plain` for those made on a directory entry before its name is read. */
  datatype Node =
    | File(volume: Serial, index: Index, pinned: bool, content: Bytes)
    | Dir(volume: Serial, index: Index, pinned: bool, children: seq<Entry>)
  datatype Entry = Entry(name: Text, plain: bool, node: Node)

  // ----- the encoding -----

  const FILE := "file"
  const DIRECTORY := "directory"

  /** A text of plain characters, one unit each. */
  function Plain(s: string): Text {
    if s == "" then [] else [if s[0] < '\U{10000}' then s[0] as Unit else 0] + Plain(s[1..])
  }

  function Number(n: nat): Text {
    Plain(Decimal(n))
  }

  function Identity(volume: Serial, index: Index): Text {
    Plain(Decimal(volume) + ([':'] + Decimal(index)))
  }

  /** Four little-endian bytes, as a 32-bit word holds them. */
  function Word(n: nat): Bytes {
    [n % 0x100, n / 0x100 % 0x100, n / 0x1_0000 % 0x100, n / 0x100_0000 % 0x100]
  }

  function Pair(u: Unit): Bytes {
    [u % 0x100, u / 0x100]
  }

  function Units(t: Text): Bytes {
    if t == [] then [] else Pair(t[0]) + Units(t[1..])
  }

  function Field(t: Text): Bytes {
    Word(2 * |t|) + Units(t)
  }

  /** The stream of a tree whose children are visited in the order they are listed. */
  function Stream(n: Node): Bytes {
    match n
    case File(v, i, _, content) => Field(Plain(FILE)) + (Field(Identity(v, i)) + (Field(Number(|content|)) + content))
    case Dir(v, i, _, children) =>
      Field(Plain(DIRECTORY)) + (Field(Identity(v, i)) + (Field(Number(|children|)) + StreamAll(children)))
  }

  function StreamAll(es: seq<Entry>): Bytes {
    if es == [] then [] else Field(es[0].name) + (Stream(es[0].node) + StreamAll(es[1..]))
  }

  // ----- visiting order -----

  /** UTF-16 units as characters, in order; the gap leaves room for what Dafny's characters exclude. */
  function Letter(u: Unit): char {
    if u < 0xD800 then u as char else (u + 0x800) as char
  }

  function Letters(t: Text): string {
    if t == [] then "" else [Letter(t[0])] + Letters(t[1..])
  }

  function Key(e: Entry): string {
    Letters(e.name)
  }

  /** The tree with the children of every directory sorted by name. */
  function Canonical(n: Node): Node {
    match n
    case File(_, _, _, _) => n
    case Dir(v, i, p, children) => Dir(v, i, p, Sort(CanonicalAll(children), Key))
  }

  function CanonicalAll(es: seq<Entry>): (r: seq<Entry>)
    ensures |r| == |es|
    ensures forall k :: 0 <= k < |es| ==> r[k].name == es[k].name
  {
    if es == [] then [] else [es[0].(node := Canonical(es[0].node))] + CanonicalAll(es[1..])
  }

  // ----- what the tree means -----

  /** A tree without an order on its children. */
  datatype Shape = FileShape(volume: Serial, index: Index, content: Bytes)
                 | DirShape(volume: Serial, index: Index, children: map<Text, Shape>)

  function ShapeOf(n: Node): Shape {
    match n
    case File(v, i, _, content) => FileShape(v, i, content)
    case Dir(v, i, _, children) => DirShape(v, i, ShapesOf(children))
  }

  function ShapesOf(es: seq<Entry>): map<Text, Shape> {
    if es == [] then map[] else ShapesOf(es[1..])[es[0].name := ShapeOf(es[0].node)]
  }

  predicate Fresh(name: Text, es: seq<Entry>) {
    forall k :: 0 <= k < |es| ==> es[k].name != name
  }

  predicate DistinctNames(es: seq<Entry>) {
    forall i, j :: 0 <= i < j < |es| ==> es[i].name != es[j].name
  }

  /** No directory lists one name twice. */
  predicate Distinct(n: Node) {
    n.Dir? ==> DistinctNames(n.children) && forall k :: 0 <= k < |n.children| ==> Distinct(n.children[k].node)
  }

  // ----- sizes and checks -----

  function Height(n: Node): nat {
    if n.File? then 0 else HeightAll(n.children)
  }

  function HeightAll(es: seq<Entry>): nat {
    if es == [] then 0 else
      var (a, b) := (1 + Height(es[0].node), HeightAll(es[1..]));
      if a > b then a else b
  }

  function Count(n: Node): nat {
    1 + if n.File? then 0 else CountAll(n.children)
  }

  function CountAll(es: seq<Entry>): nat {
    if es == [] then 0 else Count(es[0].node) + CountAll(es[1..])
  }

  function Volume(n: Node): nat {
    if n.File? then |n.content| else VolumeAll(n.children)
  }

  function VolumeAll(es: seq<Entry>): nat {
    if es == [] then 0 else Volume(es[0].node) + VolumeAll(es[1..])
  }

  predicate Named(e: Entry) {
    e.plain && 1 <= |e.name| <= NAME_LIMIT
  }

  /** Every item and every directory entry passes its own checks. */
  predicate Checked(n: Node) {
    n.pinned && (n.Dir? ==> forall k :: 0 <= k < |n.children| ==> Named(n.children[k]) && Checked(n.children[k].node))
  }

  /** Sizes whose decimal form fits a field with room to spare. */
  predicate Encodable(n: Node) {
    match n
    case File(_, _, _, content) => |content| < Octal(22)
    case Dir(_, _, _, children) =>
      |children| < Octal(22) && forall k :: 0 <= k < |children| ==> Encodable(children[k].node)
  }

  predicate Fits(n: Node, depth: nat, entries: nat, total: nat) {
    && Checked(n)
    && depth + Height(n) <= DEPTH_LIMIT
    && entries + Count(n) <= ENTRY_LIMIT
    && total + Volume(n) <= BYTE_LIMIT
  }

  // ----- what the limits mean -----

  /** A way down from a directory: which child to take at each level. */
  predicate Reaches(n: Node, route: seq<nat>)
    decreases |route|
  {
    route != [] ==> n.Dir? && route[0] < |n.children| && Reaches(n.children[route[0]].node, route[1..])
  }

  lemma {:induction false} HeightOfChild(es: seq<Entry>, k: nat)
    requires k < |es|
    ensures 1 + Height(es[k].node) <= HeightAll(es)
  {
    if k > 0 { HeightOfChild(es[1..], k - 1); }
  }

  lemma {:induction false} HighestChild(es: seq<Entry>) returns (k: nat)
    requires es != []
    ensures k < |es| && HeightAll(es) == 1 + Height(es[k].node)
  {
    k := 0;
    if |es| > 1 && HeightAll(es[1..]) > 1 + Height(es[0].node) {
      k := HighestChild(es[1..]);
      k := k + 1;
    }
  }

  lemma {:induction false} RouteWithin(n: Node, route: seq<nat>)
    requires Reaches(n, route)
    ensures |route| <= Height(n)
    decreases |route|
  {
    if route != [] {
      HeightOfChild(n.children, route[0]);
      RouteWithin(n.children[route[0]].node, route[1..]);
    }
  }

  lemma {:induction false} DeepestRoute(n: Node) returns (route: seq<nat>)
    ensures Reaches(n, route) && |route| == Height(n)
    decreases Height(n)
  {
    route := [];
    if n.Dir? && n.children != [] {
      var k := HighestChild(n.children);
      var below := DeepestRoute(n.children[k].node);
      route := [k] + below;
      assert route[1..] == below;
    }
  }

  /** Everything in a tree, itself included. */
  function Items(n: Node): seq<Node> {
    [n] + if n.File? then [] else ItemsAll(n.children)
  }

  function ItemsAll(es: seq<Entry>): seq<Node> {
    if es == [] then [] else Items(es[0].node) + ItemsAll(es[1..])
  }

  lemma {:induction false} CountsItems(n: Node)
    ensures Count(n) == |Items(n)|
    decreases n, 0
  {
    if n.Dir? { CountsAllItems(n.children); }
  }

  lemma {:induction false} CountsAllItems(es: seq<Entry>)
    ensures CountAll(es) == |ItemsAll(es)|
    decreases es, 1
  {
    if es != [] {
      CountsItems(es[0].node);
      CountsAllItems(es[1..]);
    }
  }

  /** What the walk accepts of a whole tree: every check passes, nothing lies more than 60 levels down,
      there are at most 10000 items, and at most 64 MiB in all files together. */
  lemma {:induction false} FitsIff(n: Node)
    ensures Fits(n, 0, 0, 0) <==>
            && Checked(n) && (forall route :: Reaches(n, route) ==> |route| <= 60)
            && |Items(n)| <= 10_000 && Volume(n) <= 64 * 1024 * 1024
  {
    CountsItems(n);
    var deepest := DeepestRoute(n);
    forall route | Reaches(n, route) ensures |route| <= Height(n) { RouteWithin(n, route); }
  }

  // ----- fields can be told apart -----

  lemma {:induction false} WordInjective(m: nat, n: nat)
    requires m < 0x1_0000_0000 && n < 0x1_0000_0000 && Word(m) == Word(n)
    ensures m == n
  {
    assert Word(m)[0] == Word(n)[0] && Word(m)[1] == Word(n)[1] && Word(m)[2] == Word(n)[2] && Word(m)[3] == Word(n)[3];
    WordValue(m);
    WordValue(n);
  }

  lemma {:induction false} WordValue(n: nat)
    requires n < 0x1_0000_0000
    ensures n == Word(n)[0] as int + Word(n)[1] as int * 0x100 + Word(n)[2] as int * 0x1_0000 + Word(n)[3] as int * 0x100_0000
  {
    var a := n / 0x100;
    var b := a / 0x100;
    assert b == n / 0x1_0000;
    assert b / 0x100 == n / 0x100_0000;
  }

  lemma {:induction false} UnitsInjective(s: Text, t: Text)
    requires |s| == |t| && Units(s) == Units(t)
    ensures s == t
  {
    if s != [] {
      Cut(Pair(s[0]), Pair(t[0]), Units(s[1..]), Units(t[1..]));
      assert Pair(s[0])[0] == Pair(t[0])[0] && Pair(s[0])[1] == Pair(t[0])[1];
      UnitsInjective(s[1..], t[1..]);
      assert s == [s[0]] + s[1..] && t == [t[0]] + t[1..];
    }
  }

  lemma {:induction false} UnitsLength(t: Text)
    ensures |Units(t)| == 2 * |t|
  {
    if t != [] { UnitsLength(t[1..]); }
  }

  /** A field says where it ends. */
  lemma {:induction false} FieldPrefixFree(s: Text, t: Text, x: Bytes, y: Bytes)
    requires |s| < 0x8000_0000 && |t| < 0x8000_0000
    requires Field(s) + x == Field(t) + y
    ensures s == t && x == y
  {
    Associates(Word(2 * |s|), Units(s), x);
    Associates(Word(2 * |t|), Units(t), y);
    Cut(Word(2 * |s|), Word(2 * |t|), Units(s) + x, Units(t) + y);
    WordInjective(2 * |s|, 2 * |t|);
    UnitsLength(s);
    UnitsLength(t);
    Cut(Units(s), Units(t), x, y);
    UnitsInjective(s, t);
  }

  predicate Narrow(s: string) {
    forall c :: c in s ==> c < '\U{10000}'
  }

  lemma {:induction false} NarrowTail(s: string)
    requires Narrow(s) && s != ""
    ensures s[0] < '\U{10000}' && Narrow(s[1..])
  {
    assert s[0] in s;
    forall c | c in s[1..] ensures c in s {
      var k :| 0 <= k < |s[1..]| && s[1..][k] == c;
      assert s[k + 1] == c;
    }
  }

  lemma {:induction false} PlainInjective(s: string, t: string)
    requires Narrow(s) && Narrow(t) && Plain(s) == Plain(t)
    ensures s == t
  {
    if s != "" && t != "" {
      assert Plain(s)[0] == Plain(t)[0] && Plain(s)[1..] == Plain(t)[1..];
      NarrowTail(s);
      NarrowTail(t);
      PlainInjective(s[1..], t[1..]);
      SameList(s, t);
    }
  }

  lemma {:induction false} PlainLength(s: string)
    ensures |Plain(s)| == |s|
  {
    if s != "" { PlainLength(s[1..]); }
  }

  lemma {:induction false} NumberInjective(m: nat, n: nat)
    requires Number(m) == Number(n)
    ensures m == n
  {
    DecimalDigits(m);
    DecimalDigits(n);
    PlainInjective(Decimal(m), Decimal(n));
    DecimalInjective(m, n);
  }

  lemma {:induction false} NumberShort(n: nat)
    requires n < Octal(22)
    ensures |Number(n)| <= 22
  {
    DecimalShort(n, 22);
    PlainLength(Decimal(n));
  }

  lemma {:induction false} IdentityShort(v: Serial, i: Index)
    ensures |Identity(v, i)| < 100
  {
    OctalTwentyTwo();
    DecimalShort(v, 22);
    DecimalShort(i, 22);
    PlainLength(Decimal(v) + ([':'] + Decimal(i)));
  }

  lemma {:induction false} IdentityInjective(v: Serial, i: Index, w: Serial, j: Index)
    requires Identity(v, i) == Identity(w, j)
    ensures v == w && i == j
  {
    DecimalDigits(v);
    DecimalDigits(w);
    DecimalDigits(i);
    DecimalDigits(j);
    PlainInjective(Decimal(v) + ([':'] + Decimal(i)), Decimal(w) + ([':'] + Decimal(j)));
    CutAtMark(Decimal(v), Decimal(w), ':', Decimal(i), Decimal(j));
    DecimalInjective(v, w);
    DecimalInjective(i, j);
  }

  // ----- the stream is a unique encoding -----

  lemma {:induction false} KindsDiffer()
    ensures Plain(FILE) != Plain(DIRECTORY)
    ensures |Plain(FILE)| < 100 && |Plain(DIRECTORY)| < 100
  {
    PlainLength(FILE);
    PlainLength(DIRECTORY);
  }

  function Label(n: Node): Text { Plain(if n.File? then FILE else DIRECTORY) }
  function Size(n: Node): nat { if n.File? then |n.content| else |n.children| }
  function Body(n: Node): Bytes { if n.File? then n.content else StreamAll(n.children) }

  lemma {:induction false} HeaderPrefixFree(a: Node, b: Node, x: Bytes, y: Bytes)
    requires Encodable(a) && Encodable(b)
    requires Stream(a) + x == Stream(b) + y
    ensures a.File? == b.File? && a.volume == b.volume && a.index == b.index && Size(a) == Size(b)
    ensures Body(a) + x == Body(b) + y
  {
    HeaderFirst(a, x);
    HeaderFirst(b, y);
    KindsDiffer();
    var (a3, b3) := (Field(Number(Size(a))) + (Body(a) + x), Field(Number(Size(b))) + (Body(b) + y));
    var (a2, b2) := (Field(Identity(a.volume, a.index)) + a3, Field(Identity(b.volume, b.index)) + b3);
    FieldPrefixFree(Label(a), Label(b), a2, b2);
    IdentityShort(a.volume, a.index);
    IdentityShort(b.volume, b.index);
    FieldPrefixFree(Identity(a.volume, a.index), Identity(b.volume, b.index), a3, b3);
    IdentityInjective(a.volume, a.index, b.volume, b.index);
    NumberShort(Size(a));
    NumberShort(Size(b));
    FieldPrefixFree(Number(Size(a)), Number(Size(b)), Body(a) + x, Body(b) + y);
    NumberInjective(Size(a), Size(b));
  }

  lemma {:induction false} HeaderFirst(n: Node, x: Bytes)
    ensures Stream(n) + x ==
            Field(Label(n)) + (Field(Identity(n.volume, n.index)) + (Field(Number(Size(n))) + (Body(n) + x)))
  {
    var (l, i, s, b) := (Field(Label(n)), Field(Identity(n.volume, n.index)), Field(Number(Size(n))), Body(n));
    Associates(l, i + (s + b), x);
    Associates(i, s + b, x);
    Associates(s, b, x);
  }

  /** Nothing that follows a tree's stream can make it read as another tree. */
  lemma {:induction false} StreamPrefixFree(a: Node, b: Node, x: Bytes, y: Bytes)
    requires Encodable(a) && Encodable(b) && Checked(a) && Checked(b)
    ensures Stream(a) + x == Stream(b) + y <==> a == b && x == y
    decreases a
  {
    if Stream(a) + x == Stream(b) + y {
      HeaderPrefixFree(a, b, x, y);
      if a.File? {
        Cut(a.content, b.content, x, y);
      } else {
        EachCarried(a.children);
        EachCarried(b.children);
        StreamAllPrefixFree(a.children, b.children, x, y);
      }
    }
  }

  predicate Carried(e: Entry) {
    Named(e) && Checked(e.node) && Encodable(e.node)
  }

  predicate AllCarried(es: seq<Entry>) {
    es != [] ==> Carried(es[0]) && AllCarried(es[1..])
  }

  lemma {:induction false} EachCarried(es: seq<Entry>)
    requires forall k :: 0 <= k < |es| ==> Carried(es[k])
    ensures AllCarried(es)
  {
    if es != [] { EachCarried(es[1..]); }
  }

  lemma {:induction false} EntryFirst(e: Entry, rest: seq<Entry>, x: Bytes)
    ensures StreamAll([e] + rest) + x == Field(e.name) + (Stream(e.node) + (StreamAll(rest) + x))
  {
    assert ([e] + rest)[1..] == rest;
    Associates(Field(e.name), Stream(e.node) + StreamAll(rest), x);
    Associates(Stream(e.node), StreamAll(rest), x);
  }

  lemma {:induction false} StreamAllPrefixFree(ds: seq<Entry>, es: seq<Entry>, x: Bytes, y: Bytes)
    requires |ds| == |es| && AllCarried(ds) && AllCarried(es)
    requires StreamAll(ds) + x == StreamAll(es) + y
    ensures ds == es && x == y
    decreases ds
  {
    if ds == [] {
      Cut(StreamAll(ds), StreamAll(es), x, y);
    } else {
      HeadAndTail(ds);
      HeadAndTail(es);
      var (x', y') := (StreamAll(ds[1..]) + x, StreamAll(es[1..]) + y);
      EntryFirst(ds[0], ds[1..], x);
      EntryFirst(es[0], es[1..], y);
      FieldPrefixFree(ds[0].name, es[0].name, Stream(ds[0].node) + x', Stream(es[0].node) + y');
      StreamPrefixFree(ds[0].node, es[0].node, x', y');
      StreamAllPrefixFree(ds[1..], es[1..], x, y);
      SameList(ds, es);
    }
  }

  // ----- sorting children keeps what a tree is -----

  lemma {:induction false} LettersInjective(s: Text, t: Text)
    requires Letters(s) == Letters(t)
    ensures s == t
  {
    if s != [] && t != [] {
      Cut([Letter(s[0])], [Letter(t[0])], Letters(s[1..]), Letters(t[1..]));
      assert Letters(s)[0] == Letter(s[0]) && Letters(t)[0] == Letter(t[0]);
      LettersInjective(s[1..], t[1..]);
      assert s == [s[0]] + s[1..] && t == [t[0]] + t[1..];
    }
  }

  lemma {:induction false} SortedFrom(es: seq<Entry>, k: nat)
    requires k < |es|
    ensures Sort(es, Key)[k] in es
  {
    SameElements(Sort(es, Key), es);
  }

  /** Inserting puts the new element first or keeps the old first one. */
  lemma {:induction false} InsertHead(x: Entry, es: seq<Entry>)
    ensures es == [] || !Less(Key(es[0]), Key(x)) ==> Insert(x, es, Key)[0] == x && Insert(x, es, Key)[1..] == es
    ensures es != [] && Less(Key(es[0]), Key(x)) ==>
              Insert(x, es, Key)[0] == es[0] && Insert(x, es, Key)[1..] == Insert(x, es[1..], Key)
  {
  }

  lemma {:induction false} InsertShapes(x: Entry, es: seq<Entry>)
    requires Fresh(x.name, es)
    ensures ShapesOf(Insert(x, es, Key)) == ShapesOf(es)[x.name := ShapeOf(x.node)]
  {
    hide Insert, Less, Letters;
    InsertHead(x, es);
    if es != [] && Less(Key(es[0]), Key(x)) {
      InsertShapes(x, es[1..]);
      assert es[0].name != x.name;
    }
  }

  lemma {:induction false} SortShapes(es: seq<Entry>)
    requires DistinctNames(es)
    ensures ShapesOf(Sort(es, Key)) == ShapesOf(es)
  {
    if es != [] {
      var rest := es[1..];
      SortShapes(rest);
      forall k | 0 <= k < |rest| ensures Sort(rest, Key)[k].name != es[0].name { SortedFrom(rest, k); }
      InsertShapes(es[0], Sort(rest, Key));
    }
  }

  lemma {:induction false} CanonicalAllAt(es: seq<Entry>, k: nat)
    requires k < |es|
    ensures CanonicalAll(es)[k] == es[k].(node := Canonical(es[k].node))
  {
    if k > 0 { CanonicalAllAt(es[1..], k - 1); }
  }

  /** Every child of a canonical directory is a child of the directory, made canonical. */
  lemma {:induction false} CanonicalChild(es: seq<Entry>, k: nat) returns (j: nat)
    requires k < |es|
    ensures j < |es| && Sort(CanonicalAll(es), Key)[k] == es[j].(node := Canonical(es[j].node))
  {
    var all := CanonicalAll(es);
    SortedFrom(all, k);
    j :| 0 <= j < |all| && all[j] == Sort(all, Key)[k];
    CanonicalAllAt(es, j);
  }

  lemma {:induction false} CanonicalKeepsChecks(n: Node)
    requires Checked(n) && Encodable(n)
    ensures Checked(Canonical(n)) && Encodable(Canonical(n))
    decreases n
  {
    if n.Dir? {
      var es := n.children;
      forall k | 0 <= k < |es|
        ensures Carried(Sort(CanonicalAll(es), Key)[k])
      {
        var j := CanonicalChild(es, k);
        CanonicalKeepsChecks(es[j].node);
      }
      assert forall k :: 0 <= k < |es| ==> Carried(Canonical(n).children[k]);
    }
  }

  /** Sorting children does not change what the tree means. */
  lemma {:induction false} CanonicalShape(n: Node)
    requires Distinct(n)
    ensures ShapeOf(Canonical(n)) == ShapeOf(n)
    decreases n, 1
  {
    if n.Dir? {
      SortShapes(CanonicalAll(n.children));
      CanonicalShapes(n.children);
    }
  }

  lemma {:induction false} CanonicalShapes(es: seq<Entry>)
    requires forall k :: 0 <= k < |es| ==> Distinct(es[k].node)
    ensures ShapesOf(CanonicalAll(es)) == ShapesOf(es)
    decreases es, 0
  {
    if es != [] {
      CanonicalShape(es[0].node);
      CanonicalShapes(es[1..]);
    }
  }

  // ----- a canonical tree is determined by its meaning -----

  ghost predicate Ordered(n: Node) {
    n.Dir? ==> Increasing(n.children, Key) && forall k :: 0 <= k < |n.children| ==> Ordered(n.children[k].node)
  }

  lemma {:induction false} CanonicalOrdered(n: Node)
    requires Distinct(n)
    ensures Ordered(Canonical(n))
    decreases n
  {
    if n.Dir? {
      var es := n.children;
      var all := CanonicalAll(es);
      forall i, j | 0 <= i < j < |all| ensures Key(all[i]) != Key(all[j]) {
        if Key(all[i]) == Key(all[j]) { LettersInjective(all[i].name, all[j].name); }
      }
      SortIncreasing(all, Key);
      forall k | 0 <= k < |es| ensures Ordered(Sort(all, Key)[k].node) {
        var j := CanonicalChild(es, k);
        CanonicalOrdered(es[j].node);
      }
    }
  }

  lemma {:induction false} ShapesHold(es: seq<Entry>, name: Text) returns (k: nat)
    requires name in ShapesOf(es)
    ensures k < |es| && es[k].name == name
  {
    if es[0].name == name {
      k := 0;
    } else {
      k := ShapesHold(es[1..], name);
      k := k + 1;
    }
  }

  lemma {:induction false} HeadNamesMatch(ds: seq<Entry>, es: seq<Entry>)
    requires Increasing(ds, Key) && Increasing(es, Key)
    requires ds != [] && es != [] && ShapesOf(ds) == ShapesOf(es)
    ensures ds[0].name == es[0].name
  {
    assert ds[0].name in ShapesOf(ds) && es[0].name in ShapesOf(es);
    var i := ShapesHold(es, ds[0].name);
    var j := ShapesHold(ds, es[0].name);
    if i > 0 && j > 0 {
      LessTransitive(Key(ds[0]), Key(ds[j]), Key(es[i]));
      LessIrreflexive(Key(ds[0]));
    }
  }

  lemma {:induction false} NoShapes(es: seq<Entry>)
    ensures ShapesOf(es) == map[] <==> es == []
  {
    if es != [] { assert es[0].name in ShapesOf(es); }
  }

  lemma {:induction false} NotHeld(es: seq<Entry>, name: Text)
    requires Fresh(name, es)
    ensures name !in ShapesOf(es)
  {
    if es != [] { NotHeld(es[1..], name); }
  }

  lemma {:induction false} ShapeWithout(es: seq<Entry>)
    requires Increasing(es, Key) && es != []
    ensures ShapesOf(es[1..]) == ShapesOf(es) - {es[0].name}
  {
    forall k | 1 <= k < |es| ensures es[k].name != es[0].name {
      LessIrreflexive(Key(es[k]));
    }
    NotHeld(es[1..], es[0].name);
  }

  lemma {:induction false} ShapeDetermines(a: Node, b: Node)
    requires Ordered(a) && Ordered(b) && Checked(a) && Checked(b)
    requires ShapeOf(a) == ShapeOf(b)
    ensures a == b
    decreases a, 1
  {
    if a.Dir? { ShapesDetermine(a.children, b.children); }
  }

  lemma {:induction false} ShapesDetermine(ds: seq<Entry>, es: seq<Entry>)
    requires Increasing(ds, Key) && Increasing(es, Key)
    requires forall k :: 0 <= k < |ds| ==> Ordered(ds[k].node) && Named(ds[k]) && Checked(ds[k].node)
    requires forall k :: 0 <= k < |es| ==> Ordered(es[k].node) && Named(es[k]) && Checked(es[k].node)
    requires ShapesOf(ds) == ShapesOf(es)
    ensures ds == es
    decreases ds, 0
  {
    NoShapes(ds);
    NoShapes(es);
    if ds != [] {
      HeadNamesMatch(ds, es);
      assert ShapesOf(ds)[ds[0].name] == ShapeOf(ds[0].node);
      assert ShapesOf(es)[es[0].name] == ShapeOf(es[0].node);
      ShapeDetermines(ds[0].node, es[0].node);
      ShapeWithout(ds);
      ShapeWithout(es);
      ShapesDetermine(ds[1..], es[1..]);
      SameList(ds, es);
    }
  }

  // ----- the manifest identifies the tree -----

  lemma {:induction false} SmallIsEncodable(n: Node)
    requires Volume(n) <= BYTE_LIMIT && Count(n) <= ENTRY_LIMIT
    ensures Encodable(n)
    decreases n
  {
    OctalTwentyTwo();
    if n.Dir? {
      forall k | 0 <= k < |n.children| ensures Encodable(n.children[k].node) {
        PartsSmaller(n.children, k);
        SmallIsEncodable(n.children[k].node);
      }
      ManyChildren(n.children);
    }
  }

  lemma {:induction false} ManyChildren(es: seq<Entry>)
    ensures |es| <= CountAll(es)
  {
    if es != [] { ManyChildren(es[1..]); }
  }

  lemma {:induction false} PartsSmaller(es: seq<Entry>, k: nat)
    requires k < |es|
    ensures Count(es[k].node) <= CountAll(es) && Volume(es[k].node) <= VolumeAll(es)
  {
    if k > 0 { PartsSmaller(es[1..], k - 1); }
  }

  /** Two accepted trees have the same manifest exactly when they are the same tree, whatever order
      the file system lists their directories in. */
  lemma {:induction false} ManifestIffSameTree(a: Node, b: Node)
    requires Fits(a, 0, 0, 0) && Fits(b, 0, 0, 0) && Distinct(a) && Distinct(b)
    ensures Stream(Canonical(a)) == Stream(Canonical(b)) <==> ShapeOf(a) == ShapeOf(b)
  {
    SmallIsEncodable(a);
    SmallIsEncodable(b);
    CanonicalKeepsChecks(a);
    CanonicalKeepsChecks(b);
    CanonicalShape(a);
    CanonicalShape(b);
    if Stream(Canonical(a)) == Stream(Canonical(b)) {
      StreamPrefixFree(Canonical(a), Canonical(b), [], []);
    }
    if ShapeOf(a) == ShapeOf(b) {
      CanonicalOrdered(a);
      CanonicalOrdered(b);
      ShapeDetermines(Canonical(a), Canonical(b));
    }
  }

  // ----- the walk -----

  ghost predicate AllChecked(es: seq<Entry>) {
    forall e :: e in es ==> Checked(e.node)
  }

  /** Visiting the children one after another, each within the budget its elder siblings left. */
  predicate ChildrenFit(es: seq<Entry>, depth: nat, entries: nat, total: nat)
    decreases |es|
  {
    if es == [] then depth <= DEPTH_LIMIT && entries <= ENTRY_LIMIT && total <= BYTE_LIMIT
    else
      && Fits(es[0].node, depth + 1, entries, total)
      && ChildrenFit(es[1..], depth, entries + Count(es[0].node), total + Volume(es[0].node))
  }

  lemma {:induction false} ChildrenFitTogether(es: seq<Entry>, depth: nat, entries: nat, total: nat)
    ensures ChildrenFit(es, depth, entries, total) <==>
            && AllChecked(es)
            && depth + HeightAll(es) <= DEPTH_LIMIT
            && entries + CountAll(es) <= ENTRY_LIMIT
            && total + VolumeAll(es) <= BYTE_LIMIT
    decreases |es|
  {
    if es != [] {
      HeadAndTail(es);
      ChildrenFitTogether(es[1..], depth, entries + Count(es[0].node), total + Volume(es[0].node));
    }
  }

  lemma {:induction false} InsertMeasures(x: Entry, es: seq<Entry>)
    ensures CountAll(Insert(x, es, Key)) == Count(x.node) + CountAll(es)
    ensures VolumeAll(Insert(x, es, Key)) == Volume(x.node) + VolumeAll(es)
    ensures HeightAll(Insert(x, es, Key)) == HeightAll([x] + es)
  {
    InsertHead(x, es);
    assert ([x] + es)[1..] == es;
    if es != [] && Less(Key(es[0]), Key(x)) {
      InsertMeasures(x, es[1..]);
      assert ([x] + es[1..])[1..] == es[1..];
    }
  }

  lemma {:induction false} SortMeasures(es: seq<Entry>)
    ensures CountAll(Sort(es, Key)) == CountAll(es)
    ensures VolumeAll(Sort(es, Key)) == VolumeAll(es)
    ensures HeightAll(Sort(es, Key)) == HeightAll(es)
  {
    if es != [] {
      SortMeasures(es[1..]);
      InsertMeasures(es[0], Sort(es[1..], Key));
      assert ([es[0]] + Sort(es[1..], Key))[1..] == Sort(es[1..], Key);
    }
  }

  lemma {:induction false} SortChecks(es: seq<Entry>)
    ensures AllChecked(Sort(es, Key)) <==> AllChecked(es)
  {
    SameElements(Sort(es, Key), es);
  }

  lemma {:induction false} CanonicalInsert(x: Entry, es: seq<Entry>)
    ensures CanonicalAll(Insert(x, es, Key)) == Insert(x.(node := Canonical(x.node)), CanonicalAll(es), Key)
  {
    var y := x.(node := Canonical(x.node));
    InsertHead(x, es);
    InsertHead(y, CanonicalAll(es));
    if es != [] && Less(Key(es[0]), Key(x)) {
      CanonicalInsert(x, es[1..]);
      SameList(CanonicalAll(Insert(x, es, Key)), Insert(y, CanonicalAll(es), Key));
    } else {
      SameList(CanonicalAll(Insert(x, es, Key)), Insert(y, CanonicalAll(es), Key));
    }
  }

  /** Sorting first and visiting each child canonically gives the canonical tree's children. */
  lemma {:induction false} CanonicalSort(es: seq<Entry>)
    ensures CanonicalAll(Sort(es, Key)) == Sort(CanonicalAll(es), Key)
  {
    if es != [] {
      CanonicalSort(es[1..]);
      CanonicalInsert(es[0], Sort(es[1..], Key));
      assert CanonicalAll(es)[1..] == CanonicalAll(es[1..]);
    }
  }

  class Tree {
    var stream: Bytes
    var entries: nat
    var total: nat

    constructor ()
      ensures stream == [] && entries == 0 && total == 0
    {
      stream, entries, total := [], 0, 0;
    }

    method Add(t: Text)
      modifies this`stream
      ensures stream == old(stream) + Field(t)
    {
      stream := stream + Word(2 * |t|);
      stream := stream + Units(t);
    }

    /** The entries of one directory, checked as they are enumerated. */
    method Enumerate(es: seq<Entry>) returns (ok: bool)
      ensures ok <==> |es| <= ENTRY_LIMIT && forall k :: 0 <= k < |es| ==> Named(es[k])
      ensures ok <==> |es| <= 10_000 && forall k :: 0 <= k < |es| ==> es[k].plain && 0 < |es[k].name| <= 2048
    {
      var k := 0;
      while k < |es|
        invariant k <= |es| && k <= ENTRY_LIMIT
        invariant forall j :: 0 <= j < k ==> Named(es[j])
      {
        if k >= ENTRY_LIMIT || !Named(es[k]) { return false; }
        k := k + 1;
      }
      return true;
    }

    /** Feeds one tree to the hash; fails exactly when a check or a cap does. */
    method Walk(n: Node, depth: nat) returns (ok: bool)
      requires entries <= ENTRY_LIMIT && total <= BYTE_LIMIT
      modifies this
      ensures ok <==> Fits(n, depth, old(entries), old(total))
      ensures ok ==> entries <= ENTRY_LIMIT && total <= BYTE_LIMIT
      ensures ok ==> stream == old(stream) + Stream(Canonical(n))
      ensures ok ==> entries == old(entries) + Count(n) && total == old(total) + Volume(n)
      decreases Count(n), 0
    {
      if depth > DEPTH_LIMIT { return false; }
      entries := entries + 1;
      if entries > ENTRY_LIMIT || !n.pinned { return false; }
      Add(Label(n));
      Add(Identity(n.volume, n.index));
      if n.File? {
        ok := ReadFile(n);
      } else {
        ok := ReadDirectory(n, depth);
      }
      CanonicalHeader(n, old(stream));
    }

    method ReadFile(n: Node) returns (ok: bool)
      requires n.File? && total <= BYTE_LIMIT
      modifies this`total, this`stream
      ensures ok <==> old(total) + |n.content| <= BYTE_LIMIT
      ensures ok ==> total == old(total) + |n.content|
      ensures ok ==> stream == old(stream) + (Field(Number(|n.content|)) + n.content)
    {
      total := total + |n.content|;
      if total > BYTE_LIMIT { return false; }
      Associates(stream, Field(Number(|n.content|)), n.content);
      Add(Number(|n.content|));
      stream := stream + n.content;
      return true;
    }

    /** The children in name order. */
    method ReadDirectory(n: Node, depth: nat) returns (ok: bool)
      requires n.Dir? && n.pinned && 1 <= entries <= ENTRY_LIMIT && total <= BYTE_LIMIT && depth <= DEPTH_LIMIT
      modifies this
      ensures ok <==> Fits(n, depth, old(entries) - 1, old(total))
      ensures ok ==> stream == old(stream) + (Field(Number(|n.children|)) + StreamAll(Canonical(n).children))
      ensures ok ==> entries == old(entries) + CountAll(n.children) && total == old(total) + VolumeAll(n.children)
      decreases CountAll(n.children), 2
    {
      hide Fits, Checked, Sort, StreamAll, CanonicalAll, AllChecked, ChildrenFit;
      var listed := Enumerate(n.children);
      DirectoryFits(n, depth, entries - 1, total);
      if !listed { return false; }
      var sorted := Sort(n.children, Key);
      SortMeasures(n.children);
      CanonicalSort(n.children);
      Associates(stream, Field(Number(|sorted|)), StreamAll(CanonicalAll(sorted)));
      Add(Number(|sorted|));
      ok := VisitAll(sorted, depth);
    }

    method VisitAll(es: seq<Entry>, depth: nat) returns (ok: bool)
      requires entries <= ENTRY_LIMIT && total <= BYTE_LIMIT && depth <= DEPTH_LIMIT
      modifies this
      ensures ok <==> ChildrenFit(es, depth, old(entries), old(total))
      ensures ok ==> stream == old(stream) + StreamAll(CanonicalAll(es))
      ensures ok ==> entries == old(entries) + CountAll(es) && total == old(total) + VolumeAll(es)
      decreases CountAll(es), 1
    {
      hide Fits, Checked, Sort, CanonicalAll, Canonical, Stream, StreamAll;
      var i := 0;
      ghost var rest := es;
      ghost var target := stream + StreamAll(CanonicalAll(es));
      ghost var e0, t0 := entries, total;
      ghost var fits := ChildrenFit(es, depth, entries, total);
      while i < |es|
        invariant i <= |es| && rest == es[i..] && entries <= ENTRY_LIMIT && total <= BYTE_LIMIT
        invariant entries + CountAll(rest) == e0 + CountAll(es)
        invariant total + VolumeAll(rest) == t0 + VolumeAll(es)
        invariant ChildrenFit(rest, depth, entries, total) == fits
        invariant stream + StreamAll(CanonicalAll(rest)) == target
      {
        ghost var x := stream;
        var e := es[i];
        assert rest[0] == e;
        Visited(rest, x);
        PartsSmaller(es, i);
        Add(e.name);
        ok := Walk(e.node, depth + 1);
        if !ok { return false; }
        i, rest := i + 1, rest[1..];
      }
      NothingLeft(stream);
      return true;
    }
  }

  lemma {:induction false} CheckedDirectory(n: Node)
    requires n.Dir? && n.pinned
    ensures Checked(n) <==> (forall k :: 0 <= k < |n.children| ==> Named(n.children[k])) && AllChecked(n.children)
  {
    EachChecked(n.children);
  }

  lemma {:induction false} DirectoryFits(n: Node, depth: nat, entries: nat, total: nat)
    requires n.Dir? && n.pinned
    ensures Fits(n, depth, entries, total) <==>
            && |n.children| <= ENTRY_LIMIT && (forall k :: 0 <= k < |n.children| ==> Named(n.children[k]))
            && ChildrenFit(Sort(n.children, Key), depth, entries + 1, total)
  {
    hide Checked, AllChecked, Sort, ChildrenFit;
    ManyChildren(n.children);
    SortMeasures(n.children);
    SortChecks(n.children);
    CheckedDirectory(n);
    ChildrenFitTogether(Sort(n.children, Key), depth, entries + 1, total);
  }

  lemma {:induction false} EachChecked(es: seq<Entry>)
    ensures AllChecked(es) <==> forall k :: 0 <= k < |es| ==> Checked(es[k].node)
  {
    if AllChecked(es) {
      forall k | 0 <= k < |es| ensures Checked(es[k].node) { assert es[k] in es; }
    }
  }

  lemma {:induction false} CanonicalHeader(n: Node, x: Bytes)
    ensures x + Stream(Canonical(n)) ==
            x + Field(Label(n)) + Field(Identity(n.volume, n.index)) + (Field(Number(Size(n))) + Body(Canonical(n)))
  {
    Associates(x + Field(Label(n)), Field(Identity(n.volume, n.index)), Field(Number(Size(n))) + Body(Canonical(n)));
    Associates(x, Field(Label(n)), Field(Identity(n.volume, n.index)) + (Field(Number(Size(n))) + Body(Canonical(n))));
  }

  lemma {:induction false} NothingLeft(x: Bytes)
    ensures x + StreamAll(CanonicalAll([])) == x
  {
  }

  lemma {:induction false} Visited(es: seq<Entry>, x: Bytes)
    requires es != []
    ensures x + StreamAll(CanonicalAll(es)) ==
            x + Field(es[0].name) + Stream(Canonical(es[0].node)) + StreamAll(CanonicalAll(es[1..]))
    ensures AllChecked(es) <==> Checked(es[0].node) && AllChecked(es[1..])
  {
    var (n, d, r) := (Field(es[0].name), Stream(Canonical(es[0].node)), StreamAll(CanonicalAll(es[1..])));
    assert CanonicalAll(es)[0].name == es[0].name && CanonicalAll(es)[1..] == CanonicalAll(es[1..]);
    Associates(x + n, d, r);
    Associates(x, n, d + r);
    HeadAndTail(es);
  }
}
