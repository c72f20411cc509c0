/** What a search over an unchanging tree has to report.

    `Walk` is the plain recursive pre-order search. `FrameItems` lays the same
    visit out as a flat list of items, so that the unfinished part of a paged
    search (queued matches, a half-scanned file, a stack of half-read folders)
    is again a list of items that can be compared with it. */
module SearchWalk {
  import opened Wrappers
  import Lexical
  import opened Sequences

  const TEXT_LIMIT := 32000
  const LISTING_LIMIT := 10000

  datatype Kind = File | Directory | Symlink
  datatype Entry = Entry(name: string, kind: Kind)

  /** A folder observation: `ListDenied` is the native no-change denial, `ListFailed` any other error. */
  datatype Listing = Listed(entries: seq<Entry>) | ListDenied | ListFailed

  /** A file observation; `screened` holds the lines of the screened text, None for binary content. */
  datatype Reading = Observed(version: string, screened: Option<seq<string>>) | ReadDenied | ReadFailed

  /** The unchanging tree, with content screening and path validation as arbitrary functions. */
  datatype World = World(
    list: string -> Listing,
    read: string -> Reading,
    mask: string -> string,
    accepts: string -> bool)

  datatype Query = Query(path: string, term: string, byName: bool, maxDepth: nat, maxResults: nat)

  datatype Match = Match(path: string, line: Option<nat>, text: string, truncated: bool)

  predicate Includes(text: string, term: string) {
    term <= text || (text != [] && Includes(text[1..], term))
  }

  function Prefix(text: string, n: nat): string {
    if n <= |text| then text[..n] else text
  }

  function Child(path: string, name: string): string {
    if path == "." then name else path + "/" + name
  }

  /** `entries`: bounds and names are checked, then the entries are sorted by name. */
  function Entries(w: World, path: string): (r: Listing)
    ensures r.Listed? ==> |r.entries| <= LISTING_LIMIT
  {
    match w.list(path)
    case Listed(es) =>
      if |es| <= LISTING_LIMIT && forall e :: e in es ==> |e.name| <= 255 && '/' !in e.name && w.accepts(e.name)
      then Listed(Lexical.Sort(es, (e: Entry) => e.name))
      else ListFailed
    case other => other
  }

  function LineMatch(w: World, child: string, line: string, index: nat): Match {
    Match(w.mask(child), Some(index + 1), Prefix(line, TEXT_LIMIT), |line| > TEXT_LIMIT)
  }

  // ---- The plain recursive walk ----

  function LineHits(w: World, q: Query, child: string, line: string, index: nat): seq<Match> {
    if Includes(line, q.term) then [LineMatch(w, child, line, index)] else []
  }

  /** Matching lines of `lines[from..to]`, in order. */
  function Hits(w: World, q: Query, child: string, lines: seq<string>, from: nat, to: nat): seq<Match>
    requires from <= to <= |lines|
    decreases |lines| - from
  {
    if from == to then []
    else LineHits(w, q, child, lines[from], from) + Hits(w, q, child, lines, from + 1, to)
  }

  /** What the walk found so far, how many places it could not read, and how many errors stop it. */
  datatype Tally = Tally(found: seq<Match>, unreadable: nat, failures: nat)

  const NOTHING := Tally([], 0, 0)

  function Plus(a: Tally, b: Tally): Tally {
    Tally(a.found + b.found, a.unreadable + b.unreadable, a.failures + b.failures)
  }

  function WalkFile(w: World, q: Query, child: string): Tally {
    match w.read(child)
    case Observed(_, None) => NOTHING
    case Observed(_, Some(lines)) => Tally(Hits(w, q, child, lines, 0, |lines|), 0, 0)
    case ReadDenied => Tally([], 1, 0)
    case ReadFailed => Tally([], 0, 1)
  }

  /** An entry itself, before anything below it. */
  function WalkSelf(w: World, q: Query, child: string, e: Entry): Tally {
    if q.byName then
      var name := w.mask(e.name);
      if Includes(name, q.term) then Tally([Match(w.mask(child), None, name, false)], 0, 0) else NOTHING
    else if e.kind.File? then WalkFile(w, q, child)
    else NOTHING
  }

  function WalkEntry(w: World, q: Query, path: string, depth: nat, e: Entry): Tally
    decreases q.maxDepth - depth, 0, 0
  {
    var child := Child(path, e.name);
    if !w.accepts(child) then Tally([], 0, 1)
    else
      Plus(WalkSelf(w, q, child, e),
           if e.kind.Directory? && depth < q.maxDepth then WalkFolder(w, q, child, depth + 1) else NOTHING)
  }

  function WalkEntries(w: World, q: Query, path: string, depth: nat, es: seq<Entry>): Tally
    decreases q.maxDepth - depth, 1, |es|
  {
    if es == [] then NOTHING
    else Plus(WalkEntry(w, q, path, depth, es[0]), WalkEntries(w, q, path, depth, es[1..]))
  }

  /** The whole search in one recursive pass, pre-order, folders listed by name. */
  function WalkFolder(w: World, q: Query, path: string, depth: nat): Tally
    decreases q.maxDepth - depth, 2, 0
  {
    match Entries(w, path)
    case Listed(es) => WalkEntries(w, q, path, depth, es)
    case ListDenied => Tally([], 1, 0)
    case ListFailed => Tally([], 0, 1)
  }

  // ---- The same walk as a flat list of items ----

  /** `Step` stands for a visit that reports nothing; it makes the list longer than the work left. */
  datatype Item = Found(m: Match) | Unreadable | Failed | Step

  function Founds(items: seq<Item>): seq<Match> {
    if items == [] then []
    else (if items[0].Found? then [items[0].m] else []) + Founds(items[1..])
  }

  function Blind(items: seq<Item>): nat {
    if items == [] then 0 else (if items[0].Unreadable? then 1 else 0) + Blind(items[1..])
  }

  function Errors(items: seq<Item>): nat {
    if items == [] then 0 else (if items[0].Failed? then 1 else 0) + Errors(items[1..])
  }

  /** The items report exactly the tally. */
  ghost predicate Reports(items: seq<Item>, t: Tally) {
    Founds(items) == t.found && Blind(items) == t.unreadable && Errors(items) == t.failures
  }

  function Queue(pending: seq<Match>): (items: seq<Item>)
    ensures |items| == |pending|
  {
    if pending == [] then [] else [Found(pending[0])] + Queue(pending[1..])
  }

  function LineItems(w: World, q: Query, child: string, lines: seq<string>, from: nat): seq<Item>
    decreases |lines| - from
  {
    if from >= |lines| then []
    else [Step] + (Queue(LineHits(w, q, child, lines[from], from)) + LineItems(w, q, child, lines, from + 1))
  }

  function SelfItems(w: World, q: Query, child: string, e: Entry): seq<Item> {
    if q.byName then Queue(WalkSelf(w, q, child, e).found)
    else if e.kind.File? then
      match w.read(child)
      case Observed(_, None) => []
      case Observed(_, Some(lines)) => LineItems(w, q, child, lines, 0)
      case ReadDenied => [Unreadable]
      case ReadFailed => [Failed]
    else []
  }

  function EntryItems(w: World, q: Query, path: string, depth: nat, e: Entry): seq<Item>
    decreases q.maxDepth - depth, 0, 0
  {
    var child := Child(path, e.name);
    if !w.accepts(child) then [Failed]
    else
      [Step] + (SelfItems(w, q, child, e)
                + (if e.kind.Directory? && depth < q.maxDepth then FrameItems(w, q, child, depth + 1, 0) else []))
  }

  function ListItems(w: World, q: Query, path: string, depth: nat, es: seq<Entry>): (items: seq<Item>)
    ensures |items| > 0
    decreases q.maxDepth - depth, 1, |es|
  {
    if es == [] then [Step]
    else EntryItems(w, q, path, depth, es[0]) + ListItems(w, q, path, depth, es[1..])
  }

  /** What is left of a folder after its first `offset` entries. */
  function FrameItems(w: World, q: Query, path: string, depth: nat, offset: nat): (items: seq<Item>)
    ensures |items| > 0
    decreases q.maxDepth - depth, 2, 0
  {
    match Entries(w, path)
    case Listed(es) => ListItems(w, q, path, depth, if offset <= |es| then es[offset..] else [])
    case ListDenied => [Unreadable]
    case ListFailed => [Failed]
  }

  // ---- The flat list tallies to the recursive walk ----

  lemma {:induction false} FoundsConcat(a: seq<Item>, b: seq<Item>)
    ensures Founds(a + b) == Founds(a) + Founds(b)
  {
    var ab := a + b;
    if a == [] {
      assert ab == b;
    } else {
      assert ab[0] == a[0] && ab[1..] == a[1..] + b;
      FoundsConcat(a[1..], b);
    }
  }

  lemma {:induction false} CountsConcat(a: seq<Item>, b: seq<Item>)
    ensures Blind(a + b) == Blind(a) + Blind(b)
    ensures Errors(a + b) == Errors(a) + Errors(b)
  {
    var ab := a + b;
    if a == [] {
      assert ab == b;
    } else {
      assert ab[0] == a[0] && ab[1..] == a[1..] + b;
      CountsConcat(a[1..], b);
    }
  }

  lemma {:induction false} ReportsBoth(a: seq<Item>, s: Tally, b: seq<Item>, t: Tally)
    requires Reports(a, s) && Reports(b, t)
    ensures Reports(a + b, Plus(s, t))
  {
    FoundsConcat(a, b);
    CountsConcat(a, b);
  }

  lemma {:induction false} StepReports(items: seq<Item>)
    ensures Founds([Step] + items) == Founds(items)
    ensures Blind([Step] + items) == Blind(items)
    ensures Errors([Step] + items) == Errors(items)
  {
    assert ([Step] + items)[1..] == items;
  }

  lemma {:induction false} QueueReports(pending: seq<Match>)
    ensures Reports(Queue(pending), Tally(pending, 0, 0))
  {
    if pending != [] {
      var all := Queue(pending);
      assert all[0] == Found(pending[0]) && all[1..] == Queue(pending[1..]);
      QueueReports(pending[1..]);
      assert [pending[0]] + pending[1..] == pending;
    }
  }

  /** Scanning lines `from..to` turns their items into the matches found there. */
  lemma {:induction false} LinesSplit(w: World, q: Query, child: string, lines: seq<string>, from: nat, to: nat)
    requires from <= to <= |lines|
    ensures var all, rest := LineItems(w, q, child, lines, from), LineItems(w, q, child, lines, to);
            && Founds(all) == Hits(w, q, child, lines, from, to) + Founds(rest)
            && Blind(all) == Blind(rest) && Errors(all) == Errors(rest)
            && |all| == (to - from) + |Hits(w, q, child, lines, from, to)| + |rest|
    decreases |lines| - from
  {
    if from < to {
      LinesSplit(w, q, child, lines, from + 1, to);
      var here := LineHits(w, q, child, lines[from], from);
      var next := LineItems(w, q, child, lines, from + 1);
      StepReports(Queue(here) + next);
      FoundsConcat(Queue(here), next);
      CountsConcat(Queue(here), next);
      QueueReports(here);
      Associates(here, Hits(w, q, child, lines, from + 1, to), Founds(LineItems(w, q, child, lines, to)));
    }
  }

  lemma {:induction false} SelfReports(w: World, q: Query, child: string, e: Entry)
    ensures Reports(SelfItems(w, q, child, e), WalkSelf(w, q, child, e))
  {
    if q.byName {
      QueueReports(WalkSelf(w, q, child, e).found);
    } else if e.kind.File? {
      match w.read(child)
      case Observed(_, Some(lines)) => LinesSplit(w, q, child, lines, 0, |lines|);
      case _ =>
    }
  }

  lemma {:induction false} EdgeReports()
    ensures Reports([], NOTHING) && Reports([Failed], Tally([], 0, 1))
  {
  }

  lemma {:induction false} EntryReports(w: World, q: Query, path: string, depth: nat, e: Entry)
    ensures Reports(EntryItems(w, q, path, depth, e), WalkEntry(w, q, path, depth, e))
    decreases q.maxDepth - depth, 0, 0
  {
    hide SelfItems, WalkSelf, FrameItems, WalkFolder, ListItems, WalkEntries, Entries, Founds, Blind, Errors;
    var child := Child(path, e.name);
    EdgeReports();
    if w.accepts(child) {
      var descends := e.kind.Directory? && depth < q.maxDepth;
      var below := if descends then FrameItems(w, q, child, depth + 1, 0) else [];
      var t := if descends then WalkFolder(w, q, child, depth + 1) else NOTHING;
      if descends {
        FolderReports(w, q, child, depth + 1);
      }
      SelfReports(w, q, child, e);
      OwnThenBelow(SelfItems(w, q, child, e), WalkSelf(w, q, child, e), below, t);
    }
  }

  lemma {:induction false} OwnThenBelow(own: seq<Item>, s: Tally, below: seq<Item>, t: Tally)
    requires Reports(own, s) && Reports(below, t)
    ensures Reports([Step] + (own + below), Plus(s, t))
  {
    ReportsBoth(own, s, below, t);
    StepReports(own + below);
  }

  lemma {:induction false} EntriesReport(w: World, q: Query, path: string, depth: nat, es: seq<Entry>)
    ensures Reports(ListItems(w, q, path, depth, es), WalkEntries(w, q, path, depth, es))
    decreases q.maxDepth - depth, 1, |es|
  {
    if es != [] {
      EntryReports(w, q, path, depth, es[0]);
      EntriesReport(w, q, path, depth, es[1..]);
      ReportsBoth(EntryItems(w, q, path, depth, es[0]), WalkEntry(w, q, path, depth, es[0]),
                  ListItems(w, q, path, depth, es[1..]), WalkEntries(w, q, path, depth, es[1..]));
    }
  }

  /** The items of a folder report exactly what the recursive walk of that folder finds. */
  lemma {:induction false} FolderReports(w: World, q: Query, path: string, depth: nat)
    ensures Reports(FrameItems(w, q, path, depth, 0), WalkFolder(w, q, path, depth))
    decreases q.maxDepth - depth, 2, 0
  {
    match Entries(w, path)
    case Listed(es) =>
      assert es[0..] == es;
      EntriesReport(w, q, path, depth, es);
    case _ =>
  }
}
