/** The bounded capture of a worktree: which directories it may leave out, given the index it read,
    and what it is sure to hold. */
module GitSnapshot {
  import opened Formats
  import opened Wrappers
  import opened GitIndex
  import opened Octets
  import Sequences

  const DEPTH_LIMIT := 32
  const LISTING_LIMIT := 10_000
  const ENTRY_LIMIT := 20_000
  const FILE_LIMIT := 1024 * 1024
  const PACK_LIMIT := 64 * 1024 * 1024
  const TOTAL_LIMIT := 256 * 1024 * 1024
  const ROOT := "."
  const GIT := ".git"

  datatype Node = File(content: Bytes, executable: bool) | Dir(listing: seq<Listed>) | Link
  datatype Listed = Listed(name: string, node: Node)

  datatype Copied = Copied(path: string, content: Bytes, executable: bool)
  datatype Progress = Progress(files: seq<Copied>, skipped: seq<string>, entries: nat, bytes: nat)

  const START := Progress([], [], 0, 0)

  /** What the walk is given: the tracked paths if the index could be read, which characters are
      control or format characters, and which paths are pack files. */
  datatype Setting = Setting(tracked: Option<set<string>>, unusual: char -> bool, pack: string -> bool)

  predicate Usable(s: Setting, name: string) {
    name !in {"", ".", ".."} && '\\' !in name && '/' !in name && forall k :: 0 <= k < |name| ==> !s.unusual(name[k])
  }

  function Child(relative: string, name: string): string {
    if relative == ROOT then name else relative + ("/" + name)
  }

  const FORBIDDEN := {".git/config.worktree", ".git/commondir", ".git/objects/info/alternates", ".git/objects/info/http-alternates"}
  const ADMINISTRATIVE := {"HEAD", "index", "config", "packed-refs", "shallow", "refs", "objects", "info"}

  function Second(path: string): string {
    if |Segments(path)| > 1 then Segments(path)[1] else ""
  }

  /** Git's own files that are left out. */
  predicate Omitted(child: string) {
    || (".git/" <= child && Second(child) !in ADMINISTRATIVE)
    || (".git/info/" <= child && child != ".git/info/exclude")
  }

  predicate Holds(tracked: set<string>, directory: string) {
    exists name :: name in tracked && directory + "/" <= name
  }

  /** A top-level directory with no tracked path in it. */
  predicate Skips(s: Setting, relative: string, child: string, node: Node) {
    relative == ROOT && node.Dir? && child != GIT && s.tracked.Some? && !Holds(s.tracked.value, child)
  }

  function Copy(s: Setting, child: string, node: Node, p: Progress): Option<Progress>
    requires node.File?
  {
    var bytes := p.bytes + |node.content|;
    if |node.content| > (if s.pack(child) then PACK_LIMIT else FILE_LIMIT) || bytes > TOTAL_LIMIT then None
    else Some(p.(files := p.files + [Copied(child, node.content, node.executable)], bytes := bytes))
  }

  function WalkDir(s: Setting, relative: string, depth: nat, listing: seq<Listed>, p: Progress): Option<Progress>
    decreases listing, 1
  {
    if depth > DEPTH_LIMIT || |listing| > LISTING_LIMIT then None
    else WalkEntries(s, relative, depth, listing, {}, p)
  }

  function WalkEntries(s: Setting, relative: string, depth: nat, listing: seq<Listed>, names: set<string>, p: Progress)
    : Option<Progress>
    decreases listing, 0
  {
    if listing == [] then Some(p)
    else match Visit(s, relative, depth, listing[0], names, p)
      case None => None
      case Some(q) => WalkEntries(s, relative, depth, listing[1..], names + {listing[0].name}, q)
  }

  predicate Refused(s: Setting, relative: string, e: Listed, names: set<string>, entries: nat) {
    var child := Child(relative, e.name);
    || entries >= ENTRY_LIMIT || !Usable(s, e.name) || e.name in names
    || |child| > PATH_LIMIT || e.node.Link? || child in FORBIDDEN
    || (child == GIT && !Omitted(child) && !e.node.Dir?)
  }

  function Visit(s: Setting, relative: string, depth: nat, e: Listed, names: set<string>, p: Progress): Option<Progress>
    decreases e
  {
    var child := Child(relative, e.name);
    var q := p.(entries := p.entries + 1);
    if Refused(s, relative, e, names, p.entries) then None
    else if Omitted(child) then Some(q)
    else if Skips(s, relative, child, e.node) then Some(q.(skipped := q.skipped + [child]))
    else if e.node.Dir? then WalkDir(s, child, depth + 1, e.node.listing, q)
    else if e.node.File? then Copy(s, child, e.node, q)
    else None
  }

  /** An entry nothing is wrong with so far. */
  predicate Ordinary(s: Setting, relative: string, e: Listed, names: set<string>, entries: nat) {
    && entries < 20_000 && e.name !in names && !e.node.Link? && |Child(relative, e.name)| <= 2048
    && e.name !in ["", ".", ".."] && '/' !in e.name && '\\' !in e.name
    && (forall c :: c in e.name ==> !s.unusual(c))
    && Child(relative, e.name) !in [".git/config.worktree", ".git/commondir", ".git/objects/info/alternates",
                                    ".git/objects/info/http-alternates"]
  }

  // ----- the walk as it is written -----

  class Capture {
    var files: seq<Copied>
    var skipped: seq<string>
    var entries: nat
    var bytes: nat

    constructor ()
      ensures Now() == START
    {
      files, skipped, entries, bytes := [], [], 0, 0;
    }

    function Now(): Progress
      reads this
    {
      Progress(files, skipped, entries, bytes)
    }

    method CopyFile(s: Setting, child: string, node: Node) returns (ok: bool)
      requires node.File?
      modifies this`files, this`bytes
      ensures ok <==> Copy(s, child, node, old(Now())).Some?
      ensures ok ==> Now() == Copy(s, child, node, old(Now())).value
      ensures ok <==> |node.content| <= (if s.pack(child) then 64 * 1024 * 1024 else 1024 * 1024)
                      && old(bytes) + |node.content| <= 256 * 1024 * 1024
      ensures ok ==> bytes == old(bytes) + |node.content| && files == old(files) + [Copied(child, node.content, node.executable)]
    {
      if |node.content| > (if s.pack(child) then PACK_LIMIT else FILE_LIMIT) { return false; }
      bytes := bytes + |node.content|;
      if bytes > TOTAL_LIMIT { return false; }
      files := files + [Copied(child, node.content, node.executable)];
      return true;
    }

    /** One directory; anything it refuses denies the whole capture. */
    method Walk(s: Setting, relative: string, depth: nat, listing: seq<Listed>) returns (ok: bool)
      modifies this
      ensures ok <==> WalkDir(s, relative, depth, listing, old(Now())).Some?
      ensures ok ==> Now() == WalkDir(s, relative, depth, listing, old(Now())).value
      ensures ok ==> depth <= 32 && |listing| <= 10_000
      decreases listing, 1
    {
      if depth > DEPTH_LIMIT || |listing| > LISTING_LIMIT { return false; }
      var names: set<string> := {};
      ghost var whole := WalkEntries(s, relative, depth, listing, {}, Now());
      var i := 0;
      while i < |listing|
        invariant i <= |listing|
        invariant whole == WalkEntries(s, relative, depth, listing[i..], names, Now())
      {
        var e := listing[i];
        assert listing[i..][0] == e && listing[i..][1..] == listing[i + 1..];
        ok := VisitEntry(s, relative, depth, e, names);
        if !ok { return false; }
        names := names + {e.name};
        i := i + 1;
      }
      return true;
    }

    method VisitEntry(s: Setting, relative: string, depth: nat, e: Listed, names: set<string>) returns (ok: bool)
      modifies this
      ensures ok <==> Visit(s, relative, depth, e, names, old(Now())).Some?
      ensures ok ==> Now() == Visit(s, relative, depth, e, names, old(Now())).value
      ensures ok ==> Ordinary(s, relative, e, names, old(entries))
      ensures e.node.File? ==>
                (ok <==>
                  && Ordinary(s, relative, e, names, old(entries))
                  && var child := Child(relative, e.name);
                     || Omitted(child)
                     || (child != ".git" && |e.node.content| <= (if s.pack(child) then 64 * 1024 * 1024 else 1024 * 1024)
                         && old(bytes) + |e.node.content| <= 256 * 1024 * 1024))
      decreases e, 0
    {
      if entries >= ENTRY_LIMIT || !Usable(s, e.name) || e.name in names { return false; }
      entries := entries + 1;
      var child := Child(relative, e.name);
      if |child| > PATH_LIMIT || e.node.Link? || child in FORBIDDEN { return false; }
      if Omitted(child) { return true; }
      if child == GIT && !e.node.Dir? { return false; }
      if relative == ROOT && e.node.Dir? && child != GIT && s.tracked.Some? && !Holds(s.tracked.value, child) {
        skipped := skipped + [child];
        return true;
      }
      if e.node.Dir? {
        ok := Walk(s, child, depth + 1, e.node.listing);
      } else {
        ok := CopyFile(s, child, e.node);
      }
    }
  }

  // ----- what a capture is sure to hold -----

  /** The node at a path of names; names in one listing are distinct in every tree that is captured. */
  function Lookup(listing: seq<Listed>, names: seq<string>): Option<Node>
    requires names != []
    decreases listing
  {
    if listing == [] then None
    else if listing[0].name != names[0] then Lookup(listing[1..], names)
    else if |names| == 1 then Some(listing[0].node)
    else if listing[0].node.Dir? then Lookup(listing[0].node.listing, names[1..])
    else None
  }

  function Full(relative: string, names: seq<string>): string
    requires names != []
    decreases |names|
  {
    if |names| == 1 then Child(relative, names[0]) else Full(Child(relative, names[0]), names[1..])
  }

  /** Only additions: files and skipped directories already recorded stay. */
  predicate Grows(p: Progress, q: Progress) {
    p.files <= q.files && p.skipped <= q.skipped && p.entries <= q.entries && p.bytes <= q.bytes
  }

  lemma {:induction false} WalkDirGrows(s: Setting, relative: string, depth: nat, listing: seq<Listed>, p: Progress)
    ensures WalkDir(s, relative, depth, listing, p).Some? ==> Grows(p, WalkDir(s, relative, depth, listing, p).value)
    decreases listing, 1
  {
    if depth <= DEPTH_LIMIT && |listing| <= LISTING_LIMIT { WalkEntriesGrows(s, relative, depth, listing, {}, p); }
  }

  lemma {:induction false} WalkEntriesGrows(s: Setting, relative: string, depth: nat, listing: seq<Listed>, names: set<string>, p: Progress)
    ensures WalkEntries(s, relative, depth, listing, names, p).Some?
            ==> Grows(p, WalkEntries(s, relative, depth, listing, names, p).value)
    decreases listing, 0
  {
    if listing != [] {
      VisitGrows(s, relative, depth, listing[0], names, p);
      var q := Visit(s, relative, depth, listing[0], names, p);
      if q.Some? { WalkEntriesGrows(s, relative, depth, listing[1..], names + {listing[0].name}, q.value); }
    }
  }

  lemma {:induction false} VisitGrows(s: Setting, relative: string, depth: nat, e: Listed, names: set<string>, p: Progress)
    ensures Visit(s, relative, depth, e, names, p).Some? ==> Grows(p, Visit(s, relative, depth, e, names, p).value)
    decreases e, 2
  {
    if e.node.Dir? { WalkDirGrows(s, Child(relative, e.name), depth + 1, e.node.listing, p.(entries := p.entries + 1)); }
  }

  /** Not Git's own directory and not inside it. */
  predicate Outside(path: string) {
    path != "" && path != GIT && !(".git/" <= path)
  }

  lemma {:induction false} NotPrefix(a: string, b: string, k: nat)
    requires k < |a| && (k >= |b| || b[k] != a[k])
    ensures !(a <= b)
  {
  }

  lemma {:induction false} PrefixCut(a: string, b: string)
    requires |a| <= |b|
    ensures a <= b <==> b[..|a|] == a
  {
  }

  lemma {:induction false} PrefixTransitive(a: string, b: string, c: string)
    requires a <= b
    ensures b <= c ==> a <= c
  {
  }

  lemma {:induction false} DifferAt(a: string, b: string) returns (k: nat)
    requires |a| == |b| && a != b
    ensures k < |a| && a[k] != b[k]
  {
    if a[0] != b[0] {
      k := 0;
    } else {
      assert a == [a[0]] + a[1..] && b == [b[0]] + b[1..];
      k := DifferAt(a[1..], b[1..]);
      k := k + 1;
    }
  }

  lemma {:induction false} ChildOutside(relative: string, name: string)
    requires Outside(relative) && relative != ROOT
    ensures Outside(Child(relative, name)) && Child(relative, name) != ROOT
  {
    var child := Child(relative, name);
    assert child[|relative|] == '/';
    if |relative| < 4 {
      NotPrefix(".git/", child, |relative|);
    } else if |relative| == 4 {
      var k := DifferAt(relative, GIT);
      assert child[k] == relative[k] && GIT[k] == ".git/"[k];
      NotPrefix(".git/", child, k);
    } else {
      assert child[..5] == relative[..5];
      PrefixCut(".git/", child);
      PrefixCut(".git/", relative);
    }
  }

  /** A file whose path the walk neither omits nor skips is captured as it is. */
  lemma {:induction false} FileReached(s: Setting, relative: string, depth: nat, listing: seq<Listed>, names: set<string>,
                                       p: Progress, path: seq<string>)
    requires path != [] && Lookup(listing, path).Some? && Lookup(listing, path).value.File?
    requires WalkEntries(s, relative, depth, listing, names, p).Some?
    requires Outside(Child(relative, path[0])) && Child(relative, path[0]) != ROOT
    requires relative == ROOT && |path| > 1 ==> s.tracked.None? || Holds(s.tracked.value, path[0])
    ensures var f := Lookup(listing, path).value;
            Copied(Full(relative, path), f.content, f.executable)
            in WalkEntries(s, relative, depth, listing, names, p).value.files
    decreases listing
  {
    var e := listing[0];
    var q := Visit(s, relative, depth, e, names, p).value;
    if e.name != path[0] {
      FileReached(s, relative, depth, listing[1..], names + {e.name}, q, path);
    } else {
      VisitReached(s, relative, depth, e, names, p, path);
      WalkEntriesGrows(s, relative, depth, listing[1..], names + {e.name}, q);
    }
  }

  lemma {:induction false} VisitReached(s: Setting, relative: string, depth: nat, e: Listed, names: set<string>,
                                        p: Progress, path: seq<string>)
    requires path != [] && e.name == path[0] && Visit(s, relative, depth, e, names, p).Some?
    requires Outside(Child(relative, path[0])) && Child(relative, path[0]) != ROOT
    requires relative == ROOT && |path| > 1 ==> s.tracked.None? || Holds(s.tracked.value, path[0])
    requires |path| > 1 ==> e.node.Dir? && Lookup(e.node.listing, path[1..]).Some? && Lookup(e.node.listing, path[1..]).value.File?
    requires |path| == 1 ==> e.node.File?
    ensures var f := if |path| == 1 then e.node else Lookup(e.node.listing, path[1..]).value;
            Copied(Full(relative, path), f.content, f.executable) in Visit(s, relative, depth, e, names, p).value.files
    decreases e
  {
    var child := Child(relative, e.name);
    var q := p.(entries := p.entries + 1);
    assert !Omitted(child) by { NotOmitted(child); }
    if |path| > 1 {
      ChildOutside(child, path[1]);
      FileReached(s, child, depth + 1, e.node.listing, {}, q, path[1..]);
    }
  }

  lemma {:induction false} NotOmitted(child: string)
    requires Outside(child)
    ensures !Omitted(child)
  {
    PrefixTransitive(".git/", ".git/info/", child);
  }

  lemma {:induction false} FullBegins(relative: string, names: seq<string>)
    requires names != [] && Child(relative, names[0]) != ROOT
    ensures Child(relative, names[0]) <= Full(relative, names)
    ensures |names| > 1 ==> Child(relative, names[0]) + "/" <= Full(relative, names)
    decreases |names|
  {
    if |names| > 1 {
      var first := Child(relative, names[0]);
      var second := first + ("/" + names[1]);
      assert second == Child(first, names[1]) && second[|first|] == '/';
      if |first| == 0 { assert second[0] == '/'; }
      FullBegins(first, names[1..]);
      assert first + "/" <= second;
    }
  }

  lemma {:induction false} HeadUsable(s: Setting, relative: string, depth: nat, listing: seq<Listed>, names: set<string>,
                                      p: Progress, path: seq<string>)
    requires path != [] && Lookup(listing, path).Some?
    requires WalkEntries(s, relative, depth, listing, names, p).Some?
    ensures Usable(s, path[0])
    decreases listing
  {
    if listing[0].name != path[0] {
      var q := Visit(s, relative, depth, listing[0], names, p).value;
      HeadUsable(s, relative, depth, listing[1..], names + {listing[0].name}, q, path);
    }
  }

  /** A usable name at the top level: unmarked, outside Git's directory unless it is that directory. */
  lemma {:induction false} UsableHead(s: Setting, name: string)
    requires Usable(s, name) && s.unusual(BOM)
    ensures name != "" && name[0] != BOM && name != ROOT
    ensures name != GIT ==> Outside(name)
  {
    if |name| > 4 { assert name[4] in name; }
    NotPrefix(".git/", name, 4);
  }

  lemma {:induction false} NameRead(items: seq<Item>, k: nat)
    requires k < |items|
    ensures Unmarked(items[k].name) in Names(Readings(items))
  {
    assert Readings(items)[k] == Unmarked(items[k].name);
  }

  /** From the index writer to the captured tree: a file whose path the index lists is in every
      successful capture with its exact content, wherever it lies outside Git's own directory. */
  lemma {:induction false} TrackedFilesAreCaptured(sha1: Bytes -> Digest, version: nat, items: seq<Item>, extensions: Bytes,
                                                   s: Setting, listing: seq<Listed>, path: seq<string>, k: nat)
    requires version in {2, 3} && |items| <= COUNT_LIMIT && AllWellFormed(items, version)
    requires s.tracked == ReadIndex(sha1, WriteIndex(sha1, version, items, extensions)) && s.unusual(BOM)
    requires WalkDir(s, ROOT, 0, listing, START).Some?
    requires path != [] && path[0] != GIT && Lookup(listing, path).Some? && Lookup(listing, path).value.File?
    requires k < |items| && items[k].name == Full(ROOT, path)
    ensures var f := Lookup(listing, path).value;
            Copied(Full(ROOT, path), f.content, f.executable) in WalkDir(s, ROOT, 0, listing, START).value.files
  {
    ReaderUndoesWriter(sha1, version, items, extensions);
    HeadUsable(s, ROOT, 0, listing, {}, START, path);
    UsableHead(s, path[0]);
    FullBegins(ROOT, path);
    NameRead(items, k);
    if s.tracked.Some? && |path| > 1 {
      assert Full(ROOT, path)[0] == path[0][0];
      assert Full(ROOT, path) in s.tracked.value;
      assert Holds(s.tracked.value, path[0]);
    }
    FileReached(s, ROOT, 0, listing, {}, START, path);
  }

  /** No written path lies under a skipped directory, byte order marks or not: a directory whose name
      begins with one denies the capture. */
  lemma {:induction false} SkippedHoldsNothing(sha1: Bytes -> Digest, version: nat, items: seq<Item>, extensions: Bytes,
                                               s: Setting, e: Listed, names: set<string>, p: Progress, k: nat)
    requires version in {2, 3} && |items| <= COUNT_LIMIT && AllWellFormed(items, version)
    requires s.tracked == ReadIndex(sha1, WriteIndex(sha1, version, items, extensions)) && s.unusual(BOM)
    requires Visit(s, ROOT, 0, e, names, p).Some? && !Omitted(e.name) && Skips(s, ROOT, e.name, e.node)
    requires k < |items|
    ensures !(e.name + "/" <= items[k].name)
  {
    ReaderUndoesWriter(sha1, version, items, extensions);
    UsableHead(s, e.name);
    NameRead(items, k);
    if Marked(items[k].name) { HeadsDiffer(e.name, items[k].name); }
  }

  lemma {:induction false} HeadsDiffer(a: string, b: string)
    requires a != "" && b != "" && a[0] != b[0]
    ensures !(a + "/" <= b)
  {
    assert (a + "/")[0] == a[0];
  }

  /** The caps on entries and bytes hold whenever a capture succeeds. */
  lemma {:induction false} CapsHold(s: Setting, relative: string, depth: nat, listing: seq<Listed>, p: Progress)
    requires WalkDir(s, relative, depth, listing, p).Some? && p.entries <= ENTRY_LIMIT && p.bytes <= TOTAL_LIMIT
    ensures WalkDir(s, relative, depth, listing, p).value.entries <= ENTRY_LIMIT
    ensures WalkDir(s, relative, depth, listing, p).value.bytes <= TOTAL_LIMIT
    decreases listing, 1
  {
    EntriesCapped(s, relative, depth, listing, {}, p);
  }

  lemma {:induction false} EntriesCapped(s: Setting, relative: string, depth: nat, listing: seq<Listed>, names: set<string>, p: Progress)
    requires WalkEntries(s, relative, depth, listing, names, p).Some? && p.entries <= ENTRY_LIMIT && p.bytes <= TOTAL_LIMIT
    ensures WalkEntries(s, relative, depth, listing, names, p).value.entries <= ENTRY_LIMIT
    ensures WalkEntries(s, relative, depth, listing, names, p).value.bytes <= TOTAL_LIMIT
    decreases listing, 0
  {
    if listing != [] {
      var (e, child) := (listing[0], Child(relative, listing[0].name));
      var q := Visit(s, relative, depth, e, names, p);
      if !Omitted(child) && !Skips(s, relative, child, e.node) && e.node.Dir? {
        CapsHold(s, child, depth + 1, e.node.listing, p.(entries := p.entries + 1));
      }
      EntriesCapped(s, relative, depth, listing[1..], names + {e.name}, q.value);
    }
  }

  /** Nothing is invented: a file a walk added is a file of the tree, at that path, with that content. */
  lemma {:induction false} FileComesFrom(s: Setting, relative: string, depth: nat, listing: seq<Listed>, names: set<string>,
                                         p: Progress, c: Copied) returns (path: seq<string>)
    requires WalkEntries(s, relative, depth, listing, names, p).Some?
    requires c in WalkEntries(s, relative, depth, listing, names, p).value.files && c !in p.files
    ensures path != [] && path[0] !in names && Lookup(listing, path).Some?
    ensures var f := Lookup(listing, path).value;
            f.File? && c == Copied(Full(relative, path), f.content, f.executable)
    decreases listing, 0
  {
    var (e, child) := (listing[0], Child(relative, listing[0].name));
    var q := Visit(s, relative, depth, e, names, p).value;
    if c !in q.files {
      path := FileComesFrom(s, relative, depth, listing[1..], names + {e.name}, q, c);
    } else if e.node.File? {
      path := [e.name];
    } else {
      var w := WalkDir(s, child, depth + 1, e.node.listing, p.(entries := p.entries + 1));
      assert Visit(s, relative, depth, e, names, p) == w;
      assert w == WalkEntries(s, child, depth + 1, e.node.listing, {}, p.(entries := p.entries + 1));
      var inner := FileComesFrom(s, child, depth + 1, e.node.listing, {}, p.(entries := p.entries + 1), c);
      path := [e.name] + inner;
      assert path[1..] == inner;
    }
  }

  // ----- what is left out -----

  lemma {:induction false} FirstSegment(part: string, x: string, rest: string)
    requires '/' !in x && (rest == "" || rest[0] == '/')
    ensures |SplitFrom(part, x + rest, '/')| > 0 && SplitFrom(part, x + rest, '/')[0] == part + x
    decreases |x|
  {
    if x == "" {
      assert x + rest == rest && part + x == part;
    } else {
      assert (x + rest)[1..] == x[1..] + rest;
      FirstSegment(part + [x[0]], x[1..], rest);
      assert (part + [x[0]]) + x[1..] == part + x;
    }
  }

  lemma {:induction false} SecondOf(x: string, rest: string)
    requires '/' !in x && (rest == "" || rest[0] == '/')
    ensures Second(".git/" + (x + rest)) == x
  {
    var (whole, after) := (".git/" + (x + rest), "/" + (x + rest));
    assert whole == ".git" + after && after[0] == '/' && after[1..] == x + rest;
    SplitPast("", ".git", x + rest);
    FirstSegment("", x, rest);
    assert "" + x == x;
  }

  lemma {:induction false} SplitPast(part: string, x: string, rest: string)
    requires '/' !in x
    ensures SplitFrom(part, x + ("/" + rest), '/') == [part + x] + SplitFrom("", rest, '/')
    decreases |x|
  {
    var s := x + ("/" + rest);
    if x == "" {
      assert s == "/" + rest && s[1..] == rest && part + x == part;
    } else {
      assert s[1..] == x[1..] + ("/" + rest);
      SplitPast(part + [x[0]], x[1..], rest);
      assert (part + [x[0]]) + x[1..] == part + x;
    }
  }

  /** What is left out of Git's directory: everything but HEAD, index, config, packed-refs, shallow, refs,
      objects and info, and of info everything but the exclude file. */
  lemma {:induction false} OmittedIff(x: string, rest: string)
    requires '/' !in x && (rest == "" || rest[0] == '/')
    ensures Omitted(".git/" + (x + rest)) <==>
            || (x != "HEAD" && x != "index" && x != "config" && x != "packed-refs" && x != "shallow" && x != "refs" && x != "objects"
                && x != "info")
            || (x == "info" && rest != "" && rest != "/exclude")
  {
    var child := ".git/" + (x + rest);
    SecondOf(x, rest);
    assert ".git/" <= child;
    if ".git/info/" <= child {
      assert child[5..10] == "info/" && (x + rest)[..5] == "info/";
      InfoOnly(x, rest);
    }
    if x == "info" && rest != "" {
      assert child == ".git/info/" + rest[1..];
      assert rest == "/exclude" <==> child == ".git/info/exclude";
    }
  }

  lemma {:induction false} InfoOnly(x: string, rest: string)
    requires '/' !in x && (rest == "" || rest[0] == '/') && |x + rest| >= 5 && (x + rest)[..5] == "info/"
    ensures x == "info" && rest != ""
  {
    var s := x + rest;
    assert s == "info" + (['/'] + s[5..]) && '/' in s;
    assert rest == "" ==> x == s;
    assert rest == ['/'] + rest[1..];
    Sequences.CutAtMark(x, "info", '/', rest[1..], s[5..]);
  }

  /** Nothing outside Git's directory is left out. */
  lemma {:induction false} OmittedOnlyInside(child: string)
    requires Omitted(child)
    ensures ".git/" <= child
  {
    assert ".git/info/" <= child ==> ".git/" <= child by { PrefixTransitive(".git/", ".git/info/", child); }
  }
}
