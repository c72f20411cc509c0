/** The search loop itself, its listing cache, its cursors, and whole runs of pages. */
module SearchService {
  import opened Wrappers
  import opened SearchWalk
  import opened Search
  import SearchHits
  import opened Sequences

  function Lengths(order: seq<string>, store: map<string, seq<Entry>>): nat
    requires forall p :: p in order ==> p in store
  {
    if order == [] then 0 else |store[order[0]]| + Lengths(order[1..], store)
  }

  /** The listings seen by one page: an insertion-ordered map, oldest dropped first. */
  class ListingCache {
    var order: seq<string>
    var store: map<string, seq<Entry>>
    var cachedEntries: int

    ghost predicate Valid()
      reads this
    {
      && (forall p :: p in order <==> p in store)
      && (forall i, j :: 0 <= i < j < |order| ==> order[i] != order[j])
      && cachedEntries == Lengths(order, store)
      && cachedEntries <= LISTING_LIMIT
    }

    constructor ()
      ensures Valid() && store == map[]
    {
      order, store, cachedEntries := [], map[], 0;
    }

    /** Remember a listing, dropping the oldest ones until the total fits. */
    method Put(path: string, entries: seq<Entry>)
      requires Valid() && path !in store && |entries| <= LISTING_LIMIT
      modifies this
      ensures Valid()
      ensures path in store && store[path] == entries
      ensures forall p :: p in store && p != path ==> p in old(store) && store[p] == old(store)[p]
      ensures old(cachedEntries) + |entries| <= LISTING_LIMIT ==> store == old(store)[path := entries]
    {
      while cachedEntries + |entries| > LISTING_LIMIT && |order| > 0
        invariant Valid() && path !in store
        invariant forall p :: p in store ==> p in old(store) && store[p] == old(store)[p]
        invariant old(cachedEntries) + |entries| <= LISTING_LIMIT ==> store == old(store) && cachedEntries == old(cachedEntries)
        decreases |order|
      {
        var oldest := order[0];
        LengthsAgree(order[1..], store, store - {oldest});
        cachedEntries := cachedEntries - |store[oldest]|;
        store := store - {oldest};
        order := order[1..];
      }
      LengthsAppend(order, store, path, entries);
      order := order + [path];
      store := store[path := entries];
      cachedEntries := cachedEntries + |entries|;
    }

    /** A listing from the cache, or a fresh one that is then remembered. */
    method Fetch(w: World, path: string) returns (r: Listing)
      requires Valid() && forall p :: p in store ==> Entries(w, p) == Listed(store[p])
      modifies this
      ensures Valid() && forall p :: p in store ==> Entries(w, p) == Listed(store[p])
      ensures r == Entries(w, path)
    {
      if path in store {
        r := Listed(store[path]);
      } else {
        r := Entries(w, path);
        if r.Listed? {
          Put(path, r.entries);
        }
      }
    }
  }

  lemma {:induction false} LengthsAgree(order: seq<string>, a: map<string, seq<Entry>>, b: map<string, seq<Entry>>)
    requires forall p :: p in order ==> p in a
    requires forall p :: p in order ==> p in b && a[p] == b[p]
    ensures Lengths(order, a) == Lengths(order, b)
  {
    if order != [] {
      LengthsAgree(order[1..], a, b);
    }
  }

  lemma {:induction false} LengthsAppend(order: seq<string>, store: map<string, seq<Entry>>, path: string, entries: seq<Entry>)
    requires path !in order && forall p :: p in order ==> p in store
    ensures Lengths(order + [path], store[path := entries]) == Lengths(order, store) + |entries|
  {
    var store' := store[path := entries];
    if order == [] {
      assert order + [path] == [path];
      assert Lengths([path], store') == |store'[path]| + Lengths([path][1..], store');
    } else {
      var longer := order + [path];
      assert longer[0] == order[0] && longer[1..] == order[1..] + [path];
      LengthsAppend(order[1..], store, path, entries);
    }
  }

  /** A match as displayed with `budget` characters left for its path and then its text. */
  function Displayed(m: Match, budget: nat): Match {
    var path := Prefix(m.path, budget);
    var text := Prefix(m.text, budget - |path|);
    Match(path, m.line, text, m.truncated || |text| != |m.text| || |path| != |m.path|)
  }

  function Chars(ms: seq<Match>): nat {
    if ms == [] then 0 else Chars(ms[..|ms| - 1]) + |ms[|ms| - 1].path| + |ms[|ms| - 1].text|
  }

  /** Only the last match of a page may be cut, only at its end, and then it says so. */
  ghost predicate Shows(raw: seq<Match>, shown: seq<Match>) {
    && |raw| == |shown|
    && (forall i :: 0 <= i < |raw| - 1 ==> shown[i] == raw[i])
    && (raw != [] ==>
          var full, cut := raw[|raw| - 1], shown[|raw| - 1];
          && cut.path <= full.path && cut.text <= full.text && cut.line == full.line
          && (cut.truncated <==> full.truncated || cut.path != full.path || cut.text != full.text))
  }

  lemma {:induction false} ShowsExtend(raw: seq<Match>, m: Match, budget: nat)
    ensures Shows(raw + [m], raw + [Displayed(m, budget)])
    ensures Chars(raw + [Displayed(m, budget)]) == Chars(raw) + |Displayed(m, budget).path| + |Displayed(m, budget).text|
    ensures |Displayed(m, budget).path| + |Displayed(m, budget).text| <= budget
    ensures |Displayed(m, budget).path| + |Displayed(m, budget).text| < budget ==> Displayed(m, budget) == m
  {
    var shown := raw + [Displayed(m, budget)];
    assert shown[..|shown| - 1] == raw;
  }

  /** One search in progress: the state a cursor refers to. */
  class SearchState {
    const query: Query
    const root: string
    const expiresAt: int
    var stack: seq<Frame>
    var pending: seq<Match>
    var scan: Option<Scan>
    var unreadable: nat

    function View(): View
      reads this
    {
      Search.View(stack, pending, scan, unreadable)
    }

    constructor (root: string, query: Query, now: int)
      ensures this.root == root && this.query == query && expiresAt == now + LIFETIME
      ensures View() == Start(query)
    {
      this.root, this.query, this.expiresAt := root, query, now + LIFETIME;
      stack, pending, scan, unreadable := [Frame(query.path, 0, 0)], [], None, 0;
    }

    /** Queue a file's matching lines from line `start` on, remembering where the queue filled up. */
    method QueueLines(w: World, version: string, screened: Option<seq<string>>, child: string, start: nat)
      returns (ghost n: nat)
      requires pending == []
      modifies `pending, `scan
      ensures screened.None? ==> pending == [] && scan == None
      ensures screened.Some? ==> Queued(w, query, child, version, screened.value, start, n, pending, scan)
    {
      n := start;
      if screened.None? {
        scan := None;
        return;
      }
      var lines := screened.value;
      var index := start;
      while index < |lines| && |pending| < PENDING_LIMIT
        invariant start <= index && (index <= |lines| || index == start)
        invariant |pending| <= PENDING_LIMIT
        invariant index <= |lines| ==> pending == Hits(w, query, child, lines, start, index)
        invariant index > |lines| ==> pending == []
        invariant index == start ==> pending == []
        decreases |lines| - index
      {
        HitsExtend(w, query, child, lines, start, index);
        if Includes(lines[index], query.term) {
          pending := pending + [LineMatch(w, child, lines[index], index)];
        }
        index := index + 1;
      }
      n := index;
      scan := if index < |lines| then Some(Scan(child, index, version)) else None;
    }

    /** Continue the half-scanned file. */
    method ContinueScan(w: World) returns (ok: bool)
      requires pending == [] && scan.Some?
      modifies this
      ensures ok ==> Moves(w, query, old(View()), View())
      ensures !ok ==> Total(w, query, old(View())).failures > 0
    {
      ghost var before := View();
      var current := scan.value;
      ok := true;
      match w.read(current.path)
      case ReadFailed =>
        TotalOf(w, query, before);
        ok := false;
      case ReadDenied =>
        unreadable := unreadable + 1;
        scan := None;
        ScanDropped(w, query, before, View());
      case Observed(version, screened) =>
        if version != current.version {
          unreadable := unreadable + 1;
          scan := None;
          ScanDropped(w, query, before, View());
        } else {
          var n := QueueLines(w, version, screened, current.path, current.nextLine);
          if screened.None? {
            ScanDropped(w, query, before, View());
          } else {
            ScanStep(w, query, before, screened.value, n, View());
          }
        }
    }

    /** Report an entry itself: its name, or the lines of a file. */
    method QueueSelf(w: World, child: string, e: Entry) returns (ok: bool)
      requires pending == [] && scan == None
      modifies `pending, `scan, `unreadable
      ensures ok ==> unreadable >= old(unreadable) && |pending| <= PENDING_LIMIT
      ensures ok ==> Holds(w, query, SelfItems(w, query, child, e), pending, scan, unreadable - old(unreadable))
      ensures !ok ==> Errors(SelfItems(w, query, child, e)) > 0
    {
      ok := true;
      if query.byName {
        var name := w.mask(e.name);
        if Includes(name, query.term) {
          pending := [Match(w.mask(child), None, name, false)];
        }
        QueueReports(WalkSelf(w, query, child, e).found);
      } else if e.kind.File? {
        match w.read(child)
        case ReadFailed => ok := false;
        case ReadDenied => unreadable := unreadable + 1;
        case Observed(version, screened) =>
          var n := QueueLines(w, version, screened, child, 0);
          if screened.Some? {
            QueuedReports(w, query, child, version, screened.value, 0, n, pending, scan);
          }
      }
    }

    /** Examine entry number `top.offset` of the top folder. */
    method ExamineEntry(w: World, below: seq<Frame>, top: Frame, es: seq<Entry>) returns (ok: bool)
      requires pending == [] && scan == None && stack == below + [top]
      requires Entries(w, top.path) == Listed(es) && top.offset < |es|
      modifies this
      ensures ok ==> Moves(w, query, old(View()), View())
      ensures ok ==> |stack| >= old(|stack|)
      ensures !ok ==> Total(w, query, old(View())).failures > 0
    {
      ghost var before := View();
      var e := es[top.offset];
      var child := Child(top.path, e.name);
      FrameEntry(w, query, below, top, es);
      ghost var rest := StackItems(w, query, below + [top.(offset := top.offset + 1)]);
      ghost var items := EntryItems(w, query, top.path, top.depth, e);
      if !w.accepts(child) {
        FailsAtTop(w, query, before, items, rest);
        return false;
      }
      stack := Pushed(w, query, below, top, e);
      ok := QueueSelf(w, child, e);
      if ok {
        EntryStep(w, query, before, below, top, es, View());
      } else {
        OwnThenTail(SelfItems(w, query, child, e), Search.Below(w, query, top, e));
        FailsAtTop(w, query, before, items, rest);
      }
    }

    /** Examine the next entry of the top folder, or leave the folder. */
    method NextEntry(w: World, cache: ListingCache) returns (ok: bool, cost: nat)
      requires pending == [] && scan == None && stack != []
      requires cache.Valid() && forall p :: p in cache.store ==> Entries(w, p) == Listed(cache.store[p])
      modifies this, cache
      ensures cache.Valid() && forall p :: p in cache.store ==> Entries(w, p) == Listed(cache.store[p])
      ensures ok ==> Moves(w, query, old(View()), View())
      ensures ok ==> cost == (if |stack| < old(|stack|) && unreadable == old(unreadable) then 0 else 1)
      ensures !ok ==> Total(w, query, old(View())).failures > 0
    {
      ghost var before := View();
      var below, top := stack[..|stack| - 1], stack[|stack| - 1];
      var listing := cache.Fetch(w, top.path);
      ok, cost := true, 1;
      match listing
      case ListFailed =>
        FailsAtTop(w, query, before, [Failed], StackItems(w, query, below));
        ok := false;
      case ListDenied =>
        unreadable := unreadable + 1;
        stack := below;
        FrameDenied(w, query, before, View());
      case Listed(es) =>
        if top.offset >= |es| {
          stack := below;
          cost := 0;
          FramePopped(w, query, before, View());
        } else {
          ok := ExamineEntry(w, below, top, es);
        }
    }

    /** Take one match out of the queue and display it. */
    method ShowNext(ghost w: World, remaining: nat) returns (shown: Match, ghost m: Match)
      requires pending != []
      modifies `pending
      ensures shown == Displayed(m, remaining)
      ensures Total(w, query, old(View())) == Owed([m], Total(w, query, View()))
      ensures |Rest(w, query, View())| < |Rest(w, query, old(View()))|
      ensures |pending| < old(|pending|)
    {
      EmitStep(w, query, View());
      m := pending[0];
      shown := Displayed(pending[0], remaining);
      pending := pending[1..];
    }

    /** One page. `raw` is what leaves the search, `matches` is how it is displayed. */
    method Page(w: World) returns (ok: bool, matches: seq<Match>, work: nat, ghost raw: seq<Match>)
      requires query.maxResults > 0 && |pending| <= PENDING_LIMIT
      modifies this
      ensures ok ==> |pending| <= PENDING_LIMIT
      ensures ok ==> PageOf(w, query, old(View()), raw, View()) && Shows(raw, matches)
      ensures ok ==> |matches| <= query.maxResults && Chars(matches) <= TEXT_LIMIT && work <= WORK_LIMIT
      ensures !ok ==> Total(w, query, old(View())).failures > 0
    {
      ok, matches, work, raw := true, [], 0, [];
      ghost var start := View();
      var remaining: nat := TEXT_LIMIT;
      var cache := new ListingCache();
      assert [] + Total(w, query, start).found == Total(w, query, start).found;
      while |matches| < query.maxResults && remaining > 0
        invariant cache.Valid() && fresh(cache)
        invariant forall p :: p in cache.store ==> Entries(w, p) == Listed(cache.store[p])
        invariant |pending| <= PENDING_LIMIT && work <= WORK_LIMIT && |matches| <= query.maxResults
        invariant Displaying(raw, matches, remaining)
        invariant Underway(w, query, start, raw, View())
        invariant (View() == start && matches == [] && work == 0 && remaining == TEXT_LIMIT)
               || |Rest(w, query, View())| < |Rest(w, query, start)|
        decreases |Rest(w, query, View())|
      {
        ghost var before := View();
        if pending != [] {
          var shown, m := ShowNext(w, remaining);
          UnderwayEmits(w, query, start, raw, before, m, View());
          ShowsExtend(raw, m, remaining);
          matches, raw := matches + [shown], raw + [m];
          remaining := remaining - |shown.path| - |shown.text|;
          continue;
        }
        if work >= WORK_LIMIT {
          break;
        }
        if scan.Some? {
          work := work + 1;
          ok := ContinueScan(w);
          if !ok { return; }
          continue;
        }
        if stack == [] {
          break;
        }
        var cost;
        ok, cost := NextEntry(w, cache);
        if !ok { return; }
        work := work + cost;
      }
    }
  }

  ghost predicate Displaying(raw: seq<Match>, matches: seq<Match>, remaining: nat) {
    && Shows(raw, matches)
    && (remaining > 0 ==> matches == raw)
    && Chars(matches) + remaining == TEXT_LIMIT
  }

  ghost predicate Underway(w: World, q: Query, start: View, raw: seq<Match>, now: View) {
    Total(w, q, start) == Owed(raw, Total(w, q, now))
  }

  lemma {:induction false} UnderwayEmits(w: World, q: Query, start: View, raw: seq<Match>, before: View, m: Match, after: View)
    requires Underway(w, q, start, raw, before) && Total(w, q, before) == Owed([m], Total(w, q, after))
    ensures Underway(w, q, start, raw + [m], after)
  {
    Associates(raw, [m], Total(w, q, after).found);
  }

  lemma {:induction false} FailsAtTop(w: World, q: Query, v: View, first: seq<Item>, rest: seq<Item>)
    requires v.pending == [] && v.scan == None
    requires StackItems(w, q, v.stack) == first + rest && Errors(first) > 0
    ensures Total(w, q, v).failures > 0
  {
    TotalOf(w, q, v);
    CountsConcat(first, rest);
  }

  // ---- Whole runs of pages ----

  function Flatten(raws: seq<seq<Match>>): seq<Match> {
    if raws == [] then [] else raws[0] + Flatten(raws[1..])
  }

  /** Each page starts from the state the page before it stored. */
  ghost predicate Run(w: World, q: Query, views: seq<View>, raws: seq<seq<Match>>) {
    && |views| == |raws| + 1
    && forall i :: 0 <= i < |raws| ==> PageOf(w, q, views[i], raws[i], views[i + 1])
  }

  lemma {:induction false} RunTelescopes(w: World, q: Query, views: seq<View>, raws: seq<seq<Match>>)
    requires Run(w, q, views, raws)
    ensures Total(w, q, views[0]) == Owed(Flatten(raws), Total(w, q, views[|raws|]))
  {
    hide Total, Rest, Finished;
    var last := Total(w, q, views[|raws|]);
    if raws == [] {
      assert [] + last.found == last.found;
    } else {
      forall i | 0 <= i < |raws[1..]| ensures PageOf(w, q, views[1..][i], raws[1..][i], views[1..][i + 1]) {
        assert PageOf(w, q, views[i + 1], raws[i + 1], views[i + 2]);
      }
      RunTelescopes(w, q, views[1..], raws[1..]);
      assert PageOf(w, q, views[0], raws[0], views[1]);
      Associates(raws[0], Flatten(raws[1..]), last.found);
    }
  }

  lemma {:induction false} StartTotal(w: World, q: Query)
    ensures Total(w, q, Start(q)) == WalkFolder(w, q, q.path, 0)
  {
    FolderReports(w, q, q.path, 0);
    TotalOf(w, q, Start(q));
    var items := FrameItems(w, q, q.path, 0, 0);
    assert Start(q).stack[..0] == [];
    assert StackItems(w, q, Start(q).stack) == items + [] == items;
  }

  /** After any number of pages, the matches handed out followed by those still owed are the
      recursive walk's matches, in its order. */
  lemma {:induction false} PagesFollowWalk(w: World, q: Query, views: seq<View>, raws: seq<seq<Match>>)
    requires Run(w, q, views, raws) && views[0] == Start(q)
    ensures WalkFolder(w, q, q.path, 0) == Owed(Flatten(raws), Total(w, q, views[|raws|]))
  {
    StartTotal(w, q);
    RunTelescopes(w, q, views, raws);
  }

  /** Following cursors until none is returned yields exactly the recursive walk: same matches,
      same order, same number of unreadable places, and no error was met on the way. */
  lemma {:induction false} AllPagesAreTheWalk(w: World, q: Query, views: seq<View>, raws: seq<seq<Match>>)
    requires Run(w, q, views, raws) && views[0] == Start(q) && Finished(views[|raws|])
    ensures WalkFolder(w, q, q.path, 0) == Tally(Flatten(raws), views[|raws|].unreadable, 0)
  {
    PagesFollowWalk(w, q, views, raws);
    TotalOf(w, q, views[|raws|]);
    assert Flatten(raws) + [] == Flatten(raws);
  }

  /** And that is what there is in the tree: one match for each place that has one, in order, no other, and
      every place counted that could not be read. */
  lemma {:induction false} AllPagesFindWhatThereIs(w: World, q: Query, views: seq<View>, raws: seq<seq<Match>>)
    requires Run(w, q, views, raws) && views[0] == Start(q) && Finished(views[|raws|])
    ensures SearchHits.Finds(w, q, Tally(Flatten(raws), views[|raws|].unreadable, 0))
  {
    hide WalkFolder, Total, Finished;
    AllPagesAreTheWalk(w, q, views, raws);
    SearchHits.WalkFinds(w, q);
  }

  /** A page can only throw when the recursive walk meets an error as well. */
  lemma {:induction false} ThrowingPageMeansFailingWalk(w: World, q: Query, views: seq<View>, raws: seq<seq<Match>>)
    requires Run(w, q, views, raws) && views[0] == Start(q)
    requires Total(w, q, views[|raws|]).failures > 0
    ensures WalkFolder(w, q, q.path, 0).failures > 0
  {
    PagesFollowWalk(w, q, views, raws);
  }

  /** A finite tree needs finitely many pages: every unfinished page leaves strictly less to do. */
  lemma {:induction false} FinitelyManyPages(w: World, q: Query, views: seq<View>, raws: seq<seq<Match>>)
    requires Run(w, q, views, raws) && views[0] == Start(q)
    requires forall i :: 0 < i < |raws| ==> !Finished(views[i])
    ensures |raws| <= 1 + |FrameItems(w, q, q.path, 0, 0)|
  {
    PagesShrink(w, q, views, raws);
    assert Start(q).stack[..0] == [];
    assert StackItems(w, q, Start(q).stack) == FrameItems(w, q, q.path, 0, 0) + [];
  }

  lemma {:induction false} PagesShrink(w: World, q: Query, views: seq<View>, raws: seq<seq<Match>>)
    requires Run(w, q, views, raws)
    requires forall i :: 0 < i < |raws| ==> !Finished(views[i])
    ensures |raws| <= 1 + |Rest(w, q, views[0])|
  {
    if |raws| > 1 {
      assert PageOf(w, q, views[0], raws[0], views[1]);
      assert !Finished(views[1]);
      forall i | 0 <= i < |raws[1..]| ensures PageOf(w, q, views[1..][i], raws[1..][i], views[1..][i + 1]) {
        assert PageOf(w, q, views[i + 1], raws[i + 1], views[i + 2]);
      }
      PagesShrink(w, q, views[1..], raws[1..]);
    }
  }
}
