/** What a search finds, told from the tree alone: one match for each place that has one, and nothing
    else, in the order of the names; and how many places it could not read. */
module SearchHits {
  import opened Wrappers
  import opened Lexical
  import opened Sequences
  import opened SearchWalk

  predicate StandsAt(text: string, term: string, i: nat) {
    i + |term| <= |text| && text[i..i + |term|] == term
  }

  ghost predicate Contains(text: string, term: string) {
    exists i :: StandsAt(text, term, i)
  }

  /** The text test of the search is: the term stands somewhere in the text. */
  lemma {:induction false} IncludesIff(text: string, term: string)
    ensures Includes(text, term) <==> Contains(text, term)
  {
    if term <= text {
      assert StandsAt(text, term, 0);
    } else if text != "" {
      var rest := text[1..];
      IncludesIff(rest, term);
      forall i: nat | StandsAt(rest, term, i) ensures StandsAt(text, term, i + 1) {
        assert text[i + 1..i + 1 + |term|] == rest[i..i + |term|];
      }
      forall i: nat | StandsAt(text, term, i) ensures i > 0 && StandsAt(rest, term, i - 1) {
        StandsLater(text, term, i);
      }
    }
  }

  lemma {:induction false} StandsLater(text: string, term: string, i: nat)
    requires text != "" && !(term <= text) && StandsAt(text, term, i)
    ensures i > 0 && StandsAt(text[1..], term, i - 1)
  {
    assert text[0..|term|] == text[..|term|] || |term| > |text|;
    assert i > 0 ==> text[1..][i - 1..i - 1 + |term|] == text[i..i + |term|];
  }

  // ----- events -----

  /** What happens at a place: a match, something that cannot be read, an error. */
  datatype What = Hit(line: nat, m: Match) | Blind | Fault

  /** A place is a route: at each folder, the number of the entry in its listing, as it was listed. */
  datatype Event = Event(route: seq<nat>, what: What)

  function ReportOf(x: What): Tally {
    match x
    case Hit(_, m) => Tally([m], 0, 0)
    case Blind => Tally([], 1, 0)
    case Fault => Tally([], 0, 1)
  }

  function Sum(evs: seq<Event>): Tally {
    if evs == [] then NOTHING else Plus(ReportOf(evs[0].what), Sum(evs[1..]))
  }

  /** A listing the search goes into. */
  predicate Good(w: World, path: string) {
    && w.list(path).Listed?
    && |w.list(path).entries| <= 10000
    && forall e :: e in w.list(path).entries ==> |e.name| <= 255 && '/' !in e.name && w.accepts(e.name)
  }

  function Under(path: string, name: string): string {
    if path == "." then name else path + "/" + name
  }

  /** What happens at an entry itself. */
  ghost predicate SelfIn(w: World, q: Query, child: string, e: Entry, x: What) {
    match x
    case Hit(line, m) =>
      if q.byName then
        line == 0 && Contains(w.mask(e.name), q.term) && m == Match(w.mask(child), None, w.mask(e.name), false)
      else
        && e.kind.File? && w.read(child).Observed? && w.read(child).screened.Some?
        && var lines := w.read(child).screened.value;
           line < |lines| && Contains(lines[line], q.term) &&
           m == Match(w.mask(child), Some(line + 1), if |lines[line]| <= 32000 then lines[line] else lines[line][..32000],
                      |lines[line]| > 32000)
    case Blind => !q.byName && e.kind.File? && w.read(child).ReadDenied?
    case Fault => !q.byName && e.kind.File? && w.read(child).ReadFailed?
  }

  ghost predicate FolderIn(w: World, path: string, x: What) {
    || (x.Blind? && w.list(path).ListDenied?)
    || (x.Fault? && !w.list(path).ListDenied? && !Good(w, path))
  }

  ghost predicate EventIn(w: World, q: Query, path: string, depth: nat, route: seq<nat>, x: What)
    decreases 2 * |route|
  {
    if route == [] then FolderIn(w, path, x)
    else
      && Good(w, path) && route[0] < |w.list(path).entries|
      && EntryIn(w, q, path, depth, w.list(path).entries[route[0]], route[1..], x)
  }

  /** At an entry or below it; `route` is the rest of the way. */
  ghost predicate EntryIn(w: World, q: Query, path: string, depth: nat, e: Entry, route: seq<nat>, x: What)
    decreases 2 * |route| + 1
  {
    var child := Under(path, e.name);
    if !w.accepts(child) then route == [] && x.Fault?
    else
      || (route == [] && SelfIn(w, q, child, e, x))
      || (e.kind.Directory? && depth < q.maxDepth && EventIn(w, q, child, depth + 1, route, x))
  }

  /** By name at the first folder where two routes part; what stands at a folder before what stands below it;
      lines of one file in their order. */
  predicate Before(w: World, path: string, a: seq<nat>, i: nat, b: seq<nat>, j: nat)
    decreases |a|
  {
    if a == [] || b == [] then a == [] && (b != [] || i < j)
    else
      && w.list(path).Listed? && a[0] < |w.list(path).entries| && b[0] < |w.list(path).entries|
      && var (x, y) := (w.list(path).entries[a[0]].name, w.list(path).entries[b[0]].name);
         if a[0] == b[0] then Before(w, Under(path, x), a[1..], i, b[1..], j) else !Less(y, x)
  }

  predicate InOrder(w: World, path: string, evs: seq<Event>) {
    forall i, j :: 0 <= i < j < |evs| && evs[i].what.Hit? && evs[j].what.Hit? ==>
      Before(w, path, evs[i].route, evs[i].what.line, evs[j].route, evs[j].what.line)
  }

  predicate AllDifferent(evs: seq<Event>) {
    forall i, j :: 0 <= i < j < |evs| ==> evs[i] != evs[j]
  }

  lemma {:induction false} SumBoth(a: seq<Event>, b: seq<Event>)
    ensures Sum(a + b) == Plus(Sum(a), Sum(b))
  {
    hide Plus, ReportOf;
    if a == [] {
      assert a + b == b;
      PlusNothing(Sum(b));
    } else {
      assert (a + b)[0] == a[0] && (a + b)[1..] == a[1..] + b;
      SumBoth(a[1..], b);
      PlusTwice(ReportOf(a[0].what), Sum(a[1..]), Sum(b));
    }
  }

  lemma {:induction false} PlusNothing(t: Tally)
    ensures Plus(NOTHING, t) == t
  {
    assert [] + t.found == t.found;
  }

  lemma {:induction false} PlusTwice(r: Tally, s: Tally, t: Tally)
    ensures Plus(Plus(r, s), t) == Plus(r, Plus(s, t))
  {
    Associates(r.found, s.found, t.found);
  }

  lemma {:induction false} SumOne(e: Event)
    ensures Sum([e]) == ReportOf(e.what)
  {
    assert [e][1..] == [];
    assert ReportOf(e.what).found + [] == ReportOf(e.what).found;
  }

  // ----- one step down -----

  function Deeper(k: nat, evs: seq<Event>): seq<Event> {
    if evs == [] then [] else [evs[0].(route := [k] + evs[0].route)] + Deeper(k, evs[1..])
  }

  lemma {:induction false} DeeperAt(k: nat, evs: seq<Event>)
    ensures |Deeper(k, evs)| == |evs|
    ensures forall i :: 0 <= i < |evs| ==> Deeper(k, evs)[i] == evs[i].(route := [k] + evs[i].route)
    ensures Sum(Deeper(k, evs)) == Sum(evs)
  {
    if evs != [] {
      DeeperAt(k, evs[1..]);
      assert Deeper(k, evs)[1..] == Deeper(k, evs[1..]);
    }
  }

  lemma {:induction false} DeeperHolds(k: nat, evs: seq<Event>, e: Event)
    requires e in evs
    ensures e.(route := [k] + e.route) in Deeper(k, evs)
  {
    hide Deeper, Sum;
    DeeperAt(k, evs);
    var i :| 0 <= i < |evs| && evs[i] == e;
    assert Deeper(k, evs)[i] == e.(route := [k] + e.route);
  }

  lemma {:induction false} DeeperIn(k: nat, evs: seq<Event>, route: seq<nat>, x: What)
    ensures Event(route, x) in Deeper(k, evs) <==> route != [] && route[0] == k && Event(route[1..], x) in evs
  {
    hide Deeper, Sum;
    if route != [] && route[0] == k && Event(route[1..], x) in evs {
      DeeperHolds(k, evs, Event(route[1..], x));
      assert [k] + route[1..] == route;
    }
    if Event(route, x) in Deeper(k, evs) {
      DeeperAt(k, evs);
      var i :| 0 <= i < |Deeper(k, evs)| && Deeper(k, evs)[i] == Event(route, x);
      assert route == [k] + evs[i].route && route[1..] == evs[i].route;
      assert evs[i] == Event(route[1..], x);
    }
  }

  lemma {:induction false} DeeperDifferent(k: nat, evs: seq<Event>)
    requires AllDifferent(evs)
    ensures AllDifferent(Deeper(k, evs))
  {
    DeeperAt(k, evs);
    forall i, j | 0 <= i < j < |evs| ensures Deeper(k, evs)[i] != Deeper(k, evs)[j] {
      assert Deeper(k, evs)[i].route[1..] == evs[i].route && Deeper(k, evs)[j].route[1..] == evs[j].route;
    }
  }

  lemma {:induction false} DeeperInOrder(w: World, path: string, k: nat, evs: seq<Event>)
    requires w.list(path).Listed? && k < |w.list(path).entries|
    requires InOrder(w, Under(path, w.list(path).entries[k].name), evs)
    ensures InOrder(w, path, Deeper(k, evs))
  {
    DeeperAt(k, evs);
    var child := Under(path, w.list(path).entries[k].name);
    forall i, j | 0 <= i < j < |evs| && evs[i].what.Hit? && evs[j].what.Hit?
      ensures Before(w, path, [k] + evs[i].route, evs[i].what.line, [k] + evs[j].route, evs[j].what.line)
    {
      var (a, b) := ([k] + evs[i].route, [k] + evs[j].route);
      assert a[1..] == evs[i].route && b[1..] == evs[j].route;
      assert Before(w, child, evs[i].route, evs[i].what.line, evs[j].route, evs[j].what.line);
    }
  }

  // ----- at an entry itself -----

  ghost predicate LinesExact(w: World, q: Query, child: string, e: Entry, from: nat, evs: seq<Event>) {
    && (forall r, x :: Event(r, x) in evs <==> r == [] && x.Hit? && x.line >= from && SelfIn(w, q, child, e, x))
    && AllDifferent(evs) && InOrder(w, child, evs)
  }

  ghost predicate SelfExact(w: World, q: Query, child: string, e: Entry, evs: seq<Event>) {
    && (forall r, x :: Event(r, x) in evs <==> r == [] && SelfIn(w, q, child, e, x))
    && AllDifferent(evs) && InOrder(w, child, evs)
  }

  lemma {:induction false} LineEvents(w: World, q: Query, child: string, e: Entry, lines: seq<string>, from: nat) returns (evs: seq<Event>)
    requires !q.byName && e.kind.File? && w.read(child).Observed? && w.read(child).screened == Some(lines) && from <= |lines|
    ensures Sum(evs) == Tally(Hits(w, q, child, lines, from, |lines|), 0, 0)
    ensures LinesExact(w, q, child, e, from, evs)
    decreases |lines| - from
  {
    hide LinesExact, SelfIn;
    evs := [];
    if from < |lines| {
      var later := LineEvents(w, q, child, e, lines, from + 1);
      var m := LineMatch(w, child, lines[from], from);
      var here := Event([], Hit(from, m));
      var ours := if Includes(lines[from], q.term) then [here] else [];
      evs := ours + later;
      SumBoth(ours, later);
      SumOne(here);
      OneMoreLine(w, q, child, e, lines, from, later);
      hide LineMatch, Includes;
      assert [] + Hits(w, q, child, lines, from + 1, |lines|) == Hits(w, q, child, lines, from + 1, |lines|);
    } else {
      NoLines(w, q, child, e, lines);
    }
  }

  lemma {:induction false} NoLines(w: World, q: Query, child: string, e: Entry, lines: seq<string>)
    requires !q.byName && w.read(child).Observed? && w.read(child).screened == Some(lines)
    ensures LinesExact(w, q, child, e, |lines|, [])
  {
  }

  lemma {:induction false} LineIn(w: World, q: Query, child: string, e: Entry, lines: seq<string>, line: nat, m: Match)
    requires !q.byName && e.kind.File? && w.read(child).Observed? && w.read(child).screened == Some(lines) && line < |lines|
    ensures SelfIn(w, q, child, e, Hit(line, m)) <==> Includes(lines[line], q.term) && m == LineMatch(w, child, lines[line], line)
  {
    hide Includes, Contains;
    IncludesIff(lines[line], q.term);
  }

  lemma {:induction false} OneMoreLine(w: World, q: Query, child: string, e: Entry, lines: seq<string>, from: nat, later: seq<Event>)
    requires !q.byName && e.kind.File? && w.read(child).Observed? && w.read(child).screened == Some(lines) && from < |lines|
    requires LinesExact(w, q, child, e, from + 1, later)
    ensures var ours := if Includes(lines[from], q.term) then [Event([], Hit(from, LineMatch(w, child, lines[from], from)))] else [];
            LinesExact(w, q, child, e, from, ours + later)
  {
    hide SelfIn, LineMatch, Includes;
    var here := Event([], Hit(from, LineMatch(w, child, lines[from], from)));
    var ours := if Includes(lines[from], q.term) then [here] else [];
    forall r, x ensures Event(r, x) in ours + later <==> r == [] && x.Hit? && x.line >= from && SelfIn(w, q, child, e, x) {
      assert Event(r, x) in ours + later <==> Event(r, x) in ours || Event(r, x) in later;
      if x.Hit? && x.line == from { LineIn(w, q, child, e, lines, from, x.m); }
    }
    forall k | 0 <= k < |later| ensures later[k].route == [] && later[k].what.Hit? && later[k].what.line > from {
      assert Event(later[k].route, later[k].what) in later;
    }
  }

  lemma {:induction false} SelfEvents(w: World, q: Query, child: string, e: Entry) returns (evs: seq<Event>)
    ensures Sum(evs) == WalkSelf(w, q, child, e)
    ensures SelfExact(w, q, child, e, evs)
  {
    if q.byName {
      evs := NameEvents(w, q, child, e);
    } else if e.kind.File? {
      evs := FileEvents(w, q, child, e);
    } else {
      evs := [];
    }
  }

  lemma {:induction false} NameEvents(w: World, q: Query, child: string, e: Entry) returns (evs: seq<Event>)
    requires q.byName
    ensures Sum(evs) == WalkSelf(w, q, child, e)
    ensures SelfExact(w, q, child, e, evs)
  {
    hide Includes, Contains;
    var name := w.mask(e.name);
    var here := Event([], Hit(0, Match(w.mask(child), None, name, false)));
    IncludesIff(name, q.term);
    SumOne(here);
    evs := if Includes(name, q.term) then [here] else [];
    forall r, x ensures Event(r, x) in evs <==> r == [] && SelfIn(w, q, child, e, x) {
      assert Event(r, x) in evs <==> Includes(name, q.term) && Event(r, x) == here;
    }
  }

  lemma {:induction false} FileEvents(w: World, q: Query, child: string, e: Entry) returns (evs: seq<Event>)
    requires !q.byName && e.kind.File?
    ensures Sum(evs) == WalkSelf(w, q, child, e)
    ensures SelfExact(w, q, child, e, evs)
  {
    hide *;
    WalkFileIs(w, q, child, e);
    Reported();
    match w.read(child)
    case Observed(_, Some(lines)) =>
      evs := LineEvents(w, q, child, e, lines, 0);
      AllLines(w, q, child, e, lines, evs);
    case Observed(_, None) =>
      evs := [];
      SumNone();
      NoText(w, q, child, e);
    case ReadDenied =>
      evs := [Event([], Blind)];
      SumOne(evs[0]);
      NoText(w, q, child, e);
    case ReadFailed =>
      evs := [Event([], Fault)];
      SumOne(evs[0]);
      NoText(w, q, child, e);
  }

  lemma {:induction false} WalkFileIs(w: World, q: Query, child: string, e: Entry)
    requires !q.byName && e.kind.File?
    ensures WalkSelf(w, q, child, e) ==
            match w.read(child)
            case Observed(_, None) => NOTHING
            case Observed(_, Some(lines)) => Tally(Hits(w, q, child, lines, 0, |lines|), 0, 0)
            case ReadDenied => Tally([], 1, 0)
            case ReadFailed => Tally([], 0, 1)
  {
    hide Hits;
  }

  lemma {:induction false} NoText(w: World, q: Query, child: string, e: Entry)
    requires !q.byName && e.kind.File? && (w.read(child).Observed? ==> w.read(child).screened.None?)
    ensures SelfExact(w, q, child, e, match w.read(child)
                                      case Observed(_, _) => []
                                      case ReadDenied => [Event([], Blind)]
                                      case ReadFailed => [Event([], Fault)])
  {
    hide Contains;
  }

  lemma {:induction false} AllLines(w: World, q: Query, child: string, e: Entry, lines: seq<string>, evs: seq<Event>)
    requires !q.byName && w.read(child).Observed? && w.read(child).screened == Some(lines) && LinesExact(w, q, child, e, 0, evs)
    ensures SelfExact(w, q, child, e, evs)
  {
  }

  // ----- the whole walk -----

  lemma {:induction false} SamePath(path: string, name: string)
    ensures Child(path, name) == Under(path, name)
  {
  }

  lemma {:induction false} ListingIs(w: World, path: string)
    ensures Entries(w, path) == if Good(w, path) then Listed(Sort(w.list(path).entries, (e: Entry) => e.name))
                                else if w.list(path).ListDenied? then ListDenied else ListFailed
  {
  }

  ghost predicate EntryExact(w: World, q: Query, path: string, depth: nat, e: Entry, evs: seq<Event>) {
    && (forall r, x :: Event(r, x) in evs <==> EntryIn(w, q, path, depth, e, r, x))
    && AllDifferent(evs) && InOrder(w, Under(path, e.name), evs)
  }

  /** What happens at those entries of a folder, and below them. */
  ghost predicate ListExact(w: World, q: Query, path: string, depth: nat, from: seq<nat>, evs: seq<Event>)
    requires w.list(path).Listed?
  {
    && (forall r, x :: Event(r, x) in evs <==>
          r != [] && r[0] in from && r[0] < |w.list(path).entries| && EntryIn(w, q, path, depth, w.list(path).entries[r[0]], r[1..], x))
    && AllDifferent(evs) && InOrder(w, path, evs)
  }

  /** Everything that happens in a folder and below it. */
  ghost predicate FolderExact(w: World, q: Query, path: string, depth: nat, evs: seq<Event>) {
    && (forall r, x :: Event(r, x) in evs <==> EventIn(w, q, path, depth, r, x))
    && AllDifferent(evs) && InOrder(w, path, evs)
  }

  lemma {:induction false} EntryEvents(w: World, q: Query, path: string, depth: nat, e: Entry) returns (evs: seq<Event>)
    ensures Sum(evs) == WalkEntry(w, q, path, depth, e)
    ensures EntryExact(w, q, path, depth, e, evs)
    decreases q.maxDepth - depth, 0, 0
  {
    hide *;
    var child := Under(path, e.name);
    WalkEntryIs(w, q, path, depth, e);
    if !w.accepts(child) {
      evs := [Event([], Fault)];
      SumOne(evs[0]);
      Reported();
      Unacceptable(w, q, path, depth, e);
    } else {
      var own := SelfEvents(w, q, child, e);
      var below: seq<Event> := [];
      SumNone();
      var descends := e.kind.Directory? && depth < q.maxDepth;
      if descends { below := FolderEvents(w, q, child, depth + 1); }
      evs := own + below;
      SumBoth(own, below);
      OwnThenBelow(w, q, path, depth, e, own, below);
    }
  }

  lemma {:induction false} Reported()
    ensures ReportOf(Blind) == Tally([], 1, 0) && ReportOf(Fault) == Tally([], 0, 1)
  {
  }

  lemma {:induction false} SumNone()
    ensures Sum([]) == NOTHING
  {
  }

  lemma {:induction false} WalkEntryIs(w: World, q: Query, path: string, depth: nat, e: Entry)
    ensures var child := Under(path, e.name);
            WalkEntry(w, q, path, depth, e) ==
            if !w.accepts(child) then Tally([], 0, 1)
            else Plus(WalkSelf(w, q, child, e), if e.kind.Directory? && depth < q.maxDepth then WalkFolder(w, q, child, depth + 1) else NOTHING)
  {
    hide WalkSelf, WalkFolder, Plus;
  }

  lemma {:induction false} Unacceptable(w: World, q: Query, path: string, depth: nat, e: Entry)
    requires !w.accepts(Under(path, e.name))
    ensures EntryExact(w, q, path, depth, e, [Event([], Fault)])
  {
  }

  lemma {:induction false} OwnThenBelow(w: World, q: Query, path: string, depth: nat, e: Entry, own: seq<Event>, below: seq<Event>)
    requires w.accepts(Under(path, e.name)) && SelfExact(w, q, Under(path, e.name), e, own)
    requires if e.kind.Directory? && depth < q.maxDepth then FolderExact(w, q, Under(path, e.name), depth + 1, below) else below == []
    ensures EntryExact(w, q, path, depth, e, own + below)
  {
    hide SelfIn, EventIn, Under, Before;
    var child := Under(path, e.name);
    forall r, x ensures Event(r, x) in own + below <==> EntryIn(w, q, path, depth, e, r, x) {
      assert Event(r, x) in own + below <==> Event(r, x) in own || Event(r, x) in below;
    }
    OwnApart(w, q, child, depth, e, own, below);
  }

  /** What happens at an entry itself is not what happens below it. */
  lemma {:induction false} OwnApart(w: World, q: Query, child: string, depth: nat, e: Entry, own: seq<Event>, below: seq<Event>)
    requires SelfExact(w, q, child, e, own)
    requires below == [] || (e.kind.Directory? && FolderExact(w, q, child, depth + 1, below))
    ensures AllDifferent(own + below) && InOrder(w, child, own + below)
  {
    forall i | 0 <= i < |own| ensures own[i].route == [] && SelfIn(w, q, child, e, own[i].what) {
      assert Event(own[i].route, own[i].what) in own;
    }
    forall j | 0 <= j < |below| ensures below[j].what.Hit? ==> below[j].route != [] {
      assert Event(below[j].route, below[j].what) in below;
    }
    assert e.kind.Directory? ==> forall i :: 0 <= i < |own| ==> own[i].what.Hit?;
    hide SelfIn, EventIn, SelfExact, FolderExact;
    Joins(w, child, own, below);
  }

  /** Two lists of which nothing is in both, and of which the first comes before the second. */
  lemma {:induction false} Joins(w: World, path: string, a: seq<Event>, b: seq<Event>)
    requires AllDifferent(a) && AllDifferent(b) && InOrder(w, path, a) && InOrder(w, path, b)
    requires forall i, j :: 0 <= i < |a| && 0 <= j < |b| ==> a[i] != b[j]
    requires forall i, j :: 0 <= i < |a| && 0 <= j < |b| && a[i].what.Hit? && b[j].what.Hit? ==>
               Before(w, path, a[i].route, a[i].what.line, b[j].route, b[j].what.line)
    ensures AllDifferent(a + b) && InOrder(w, path, a + b)
  {
    hide Before;
  }

  /** Where these entries stand in the listing: each at another place, in the order of their names. */
  ghost predicate Picks(w: World, path: string, es: seq<Entry>, from: seq<nat>) {
    && w.list(path).Listed? && |from| == |es|
    && (forall i :: 0 <= i < |es| ==> from[i] < |w.list(path).entries| && es[i] == w.list(path).entries[from[i]])
    && (forall i, j :: 0 <= i < j < |from| ==> from[i] != from[j])
    && forall i, j :: 0 <= i < j < |es| ==> !Less(es[j].name, es[i].name)
  }

  lemma {:induction false} PicksTail(w: World, path: string, es: seq<Entry>, from: seq<nat>)
    requires es != [] && Picks(w, path, es, from)
    ensures Picks(w, path, es[1..], from[1..])
  {
    forall i, j | 0 <= i < j < |es[1..]| ensures !Less(es[1..][j].name, es[1..][i].name) {
      assert !Less(es[j + 1].name, es[i + 1].name);
    }
  }

  lemma {:induction false} ListEvents(w: World, q: Query, path: string, depth: nat, es: seq<Entry>, from: seq<nat>) returns (evs: seq<Event>)
    requires Picks(w, path, es, from)
    ensures Sum(evs) == WalkEntries(w, q, path, depth, es)
    ensures ListExact(w, q, path, depth, from, evs)
    decreases q.maxDepth - depth, 1, |es|
  {
    evs := [];
    if es != [] {
      PicksTail(w, path, es, from);
      hide ListExact, EntryExact, WalkEntry, Deeper;
      var first := EntryEvents(w, q, path, depth, es[0]);
      var rest := ListEvents(w, q, path, depth, es[1..], from[1..]);
      var ours := Deeper(from[0], first);
      evs := ours + rest;
      SumBoth(ours, rest);
      DeeperAt(from[0], first);
      FirstThenRest(w, q, path, depth, es, from, first, rest);
    }
  }

  lemma {:induction false} FirstThenRest(w: World, q: Query, path: string, depth: nat, es: seq<Entry>, from: seq<nat>,
                                         first: seq<Event>, rest: seq<Event>)
    requires es != [] && Picks(w, path, es, from)
    requires EntryExact(w, q, path, depth, es[0], first) && ListExact(w, q, path, depth, from[1..], rest)
    ensures ListExact(w, q, path, depth, from, Deeper(from[0], first) + rest)
  {
    hide EntryIn, Before, Deeper, Under;
    var (k, later, ours) := (from[0], from[1..], Deeper(from[0], first));
    assert from == [k] + later;
    DeeperDifferent(k, first);
    DeeperInOrder(w, path, k, first);
    forall r, x ensures Event(r, x) in ours + rest <==>
                        r != [] && r[0] in from && r[0] < |w.list(path).entries|
                        && EntryIn(w, q, path, depth, w.list(path).entries[r[0]], r[1..], x)
    {
      DeeperIn(k, first, r, x);
      assert Event(r, x) in ours + rest <==> Event(r, x) in ours || Event(r, x) in rest;
    }
    PartsApart(w, q, path, depth, es, from, first, rest);
  }

  /** What happens at or below one entry, and at or below the entries after it. */
  lemma {:induction false} PartsApart(w: World, q: Query, path: string, depth: nat, es: seq<Entry>, from: seq<nat>,
                                      first: seq<Event>, rest: seq<Event>)
    requires es != [] && Picks(w, path, es, from) && ListExact(w, q, path, depth, from[1..], rest)
    requires AllDifferent(Deeper(from[0], first)) && InOrder(w, path, Deeper(from[0], first))
    ensures AllDifferent(Deeper(from[0], first) + rest) && InOrder(w, path, Deeper(from[0], first) + rest)
  {
    hide EntryIn, AllDifferent, InOrder;
    var ours := Deeper(from[0], first);
    DeeperAt(from[0], first);
    forall i, j | 0 <= i < |ours| && 0 <= j < |rest|
      ensures ours[i] != rest[j]
      ensures ours[i].what.Hit? && rest[j].what.Hit? ==> Before(w, path, ours[i].route, ours[i].what.line, rest[j].route, rest[j].what.line)
    {
      assert ours[i].route[0] == from[0];
      assert Event(rest[j].route, rest[j].what) in rest;
      var k :| 0 <= k < |from[1..]| && from[1..][k] == rest[j].route[0];
      assert from[k + 1] == rest[j].route[0] && from[0] != from[k + 1];
      assert !Less(es[k + 1].name, es[0].name);
    }
    assert AllDifferent(rest) && InOrder(w, path, rest) by { RestParts(w, q, path, depth, from, rest); }
    hide Deeper, Before, Picks;
    Joins(w, path, ours, rest);
  }

  lemma {:induction false} RestParts(w: World, q: Query, path: string, depth: nat, from: seq<nat>, rest: seq<Event>)
    requires w.list(path).Listed? && from != [] && ListExact(w, q, path, depth, from[1..], rest)
    ensures AllDifferent(rest) && InOrder(w, path, rest)
  {
    hide AllDifferent, InOrder, EntryIn;
  }

  lemma {:induction false} SortPicks(w: World, path: string) returns (from: seq<nat>)
    requires Good(w, path)
    ensures Picks(w, path, Sort(w.list(path).entries, (e: Entry) => e.name), from)
    ensures forall k: nat :: k in from <==> k < |w.list(path).entries|
  {
    hide Sort, Less;
    var (raw, key) := (w.list(path).entries, (e: Entry) => e.name);
    from := SortComesFrom(raw, key);
    SortAscending(raw, key);
    Pigeonhole(from, |raw|);
    var es := Sort(raw, key);
    forall i, j | 0 <= i < j < |es| ensures !Less(es[j].name, es[i].name) { assert !Less(key(es[j]), key(es[i])); }
  }

  lemma {:induction false} FolderEvents(w: World, q: Query, path: string, depth: nat) returns (evs: seq<Event>)
    ensures Sum(evs) == WalkFolder(w, q, path, depth)
    ensures FolderExact(w, q, path, depth, evs)
    decreases q.maxDepth - depth, 2, 0
  {
    hide Entries, WalkEntries, FolderExact, ListExact, Picks;
    ListingIs(w, path);
    if Good(w, path) {
      var from := SortPicks(w, path);
      evs := ListEvents(w, q, path, depth, Sort(w.list(path).entries, (e: Entry) => e.name), from);
      WholeFolder(w, q, path, depth, from, evs);
    } else {
      evs := [Event([], if w.list(path).ListDenied? then Blind else Fault)];
      SumOne(evs[0]);
      NoFolder(w, q, path, depth);
    }
  }

  lemma {:induction false} WholeFolder(w: World, q: Query, path: string, depth: nat, from: seq<nat>, evs: seq<Event>)
    requires Good(w, path) && ListExact(w, q, path, depth, from, evs)
    requires forall k: nat :: k in from <==> k < |w.list(path).entries|
    ensures FolderExact(w, q, path, depth, evs)
  {
    hide EntryIn, Before;
    forall r, x ensures Event(r, x) in evs <==> EventIn(w, q, path, depth, r, x) {
      assert r != [] ==> (r[0] in from <==> r[0] < |w.list(path).entries|);
    }
  }

  lemma {:induction false} NoFolder(w: World, q: Query, path: string, depth: nat)
    requires !Good(w, path)
    ensures FolderExact(w, q, path, depth, [Event([], if w.list(path).ListDenied? then Blind else Fault)])
  {
    hide Good;
  }

  // ----- what is found, spelled out -----

  /** From one folder to what its k-th entry names; on through it only if it is a folder and not too deep. */
  predicate StepsTo(w: World, q: Query, depth: nat, from: string, k: nat, to: string, on: bool) {
    && w.list(from).Listed? && |w.list(from).entries| <= 10000
    && (forall e :: e in w.list(from).entries ==> |e.name| <= 255 && '/' !in e.name && w.accepts(e.name))
    && k < |w.list(from).entries|
    && to == (if from == "." then w.list(from).entries[k].name else from + "/" + w.list(from).entries[k].name)
    && w.accepts(to)
    && (on ==> w.list(from).entries[k].kind.Directory? && depth < q.maxDepth)
  }

  /** The paths along a route. */
  predicate Leads(w: World, q: Query, path: string, depth: nat, route: seq<nat>, trail: seq<string>) {
    && |trail| == |route| + 1 && trail[0] == path
    && forall j :: 0 <= j < |route| ==> StepsTo(w, q, depth + j, trail[j], route[j], trail[j + 1], j + 1 < |route|)
  }

  /** The match of one line, or of one name. */
  ghost predicate MatchAt(w: World, q: Query, path: string, e: Entry, line: nat, m: Match) {
    if q.byName then
      line == 0 && m == Match(w.mask(path), None, w.mask(e.name), false) && exists i :: StandsAt(w.mask(e.name), q.term, i)
    else
      && e.kind.File? && w.read(path).Observed? && w.read(path).screened.Some? && line < |w.read(path).screened.value|
      && var text := w.read(path).screened.value[line];
         && m.path == w.mask(path) && m.line == Some(line + 1) && (m.truncated <==> |text| > 32000)
         && m.text <= text && |m.text| == (if |text| <= 32000 then |text| else 32000)
         && exists i :: StandsAt(text, q.term, i)
  }

  ghost predicate HitAt(w: World, q: Query, route: seq<nat>, line: nat, m: Match) {
    exists trail :: && Leads(w, q, q.path, 0, route, trail) && route != []
                    && MatchAt(w, q, trail[|route|], w.list(trail[|route| - 1]).entries[route[|route| - 1]], line, m)
  }

  lemma {:induction false} MatchIff(w: World, q: Query, path: string, e: Entry, line: nat, m: Match)
    ensures MatchAt(w, q, path, e, line, m) <==> SelfIn(w, q, path, e, Hit(line, m))
  {
    hide StandsAt;
  }

  lemma {:induction false} LeadsFurther(w: World, q: Query, path: string, child: string, depth: nat, route: seq<nat>, later: seq<string>)
    requires |route| > 1 && StepsTo(w, q, depth, path, route[0], child, true) && Leads(w, q, child, depth + 1, route[1..], later)
    ensures Leads(w, q, path, depth, route, [path] + later)
  {
    hide StepsTo;
    var (trail, rest) := ([path] + later, route[1..]);
    forall j | 0 <= j < |route| ensures StepsTo(w, q, depth + j, trail[j], route[j], trail[j + 1], j + 1 < |route|) {
      if j > 0 { assert StepsTo(w, q, depth + 1 + (j - 1), later[j - 1], rest[j - 1], later[j], j < |rest|); }
    }
  }

  lemma {:induction false} TrailOf(w: World, q: Query, path: string, depth: nat, route: seq<nat>, line: nat, m: Match) returns (trail: seq<string>)
    requires EventIn(w, q, path, depth, route, Hit(line, m))
    ensures Leads(w, q, path, depth, route, trail) && route != []
    ensures MatchAt(w, q, trail[|route|], w.list(trail[|route| - 1]).entries[route[|route| - 1]], line, m)
    decreases |route|
  {
    hide SelfIn, MatchAt;
    var e := w.list(path).entries[route[0]];
    var (child, rest) := (Under(path, e.name), route[1..]);
    if rest == [] && SelfIn(w, q, child, e, Hit(line, m)) {
      trail := [path, child];
      MatchIff(w, q, child, e, line, m);
    } else {
      var later := TrailOf(w, q, child, depth + 1, rest, line, m);
      trail := [path] + later;
      assert rest[|rest| - 1] == route[|route| - 1] && later[|rest| - 1] == trail[|route| - 1] && later[|rest|] == trail[|route|];
      LeadsFurther(w, q, path, child, depth, route, later);
    }
  }

  lemma {:induction false} AlongTrail(w: World, q: Query, path: string, depth: nat, route: seq<nat>, line: nat, m: Match, trail: seq<string>)
    requires Leads(w, q, path, depth, route, trail) && route != []
    requires MatchAt(w, q, trail[|route|], w.list(trail[|route| - 1]).entries[route[|route| - 1]], line, m)
    ensures EventIn(w, q, path, depth, route, Hit(line, m))
    decreases |route|
  {
    hide SelfIn, MatchAt;
    assert StepsTo(w, q, depth, trail[0], route[0], trail[1], 1 < |route|);
    var e := w.list(path).entries[route[0]];
    var (child, rest, later) := (Under(path, e.name), route[1..], trail[1..]);
    if rest == [] {
      MatchIff(w, q, child, e, line, m);
    } else {
      assert rest[|rest| - 1] == route[|route| - 1] && later[|rest| - 1] == trail[|route| - 1] && later[|rest|] == trail[|route|];
      forall j | 0 <= j < |rest| ensures StepsTo(w, q, depth + 1 + j, later[j], rest[j], later[j + 1], j + 1 < |rest|) {
        assert StepsTo(w, q, depth + (j + 1), trail[j + 1], route[j + 1], trail[j + 2], j + 2 < |route|);
      }
      AlongTrail(w, q, child, depth + 1, rest, line, m, later);
    }
  }

  lemma {:induction false} HitIff(w: World, q: Query, route: seq<nat>, line: nat, m: Match)
    ensures HitAt(w, q, route, line, m) <==> EventIn(w, q, q.path, 0, route, Hit(line, m))
  {
    hide EventIn, MatchAt;
    if EventIn(w, q, q.path, 0, route, Hit(line, m)) {
      var trail := TrailOf(w, q, q.path, 0, route, line, m);
    }
    forall trail | && Leads(w, q, q.path, 0, route, trail) && route != []
                   && MatchAt(w, q, trail[|route|], w.list(trail[|route| - 1]).entries[route[|route| - 1]], line, m)
      ensures EventIn(w, q, q.path, 0, route, Hit(line, m))
    {
      AlongTrail(w, q, q.path, 0, route, line, m, trail);
    }
  }

  /** These matches, this many unreadable places and this many errors are what there is in the tree: every
      event of it once, in order. */
  ghost predicate Finds(w: World, q: Query, t: Tally) {
    exists evs :: FolderExact(w, q, q.path, 0, evs) && Sum(evs) == t
  }

  /** The recursive walk finds what there is in the tree. */
  lemma {:induction false} WalkFinds(w: World, q: Query)
    ensures Finds(w, q, WalkFolder(w, q, q.path, 0))
  {
    hide FolderExact, Sum;
    var evs := FolderEvents(w, q, q.path, 0);
  }

  // ----- the matches among the events -----

  datatype Place = Place(route: seq<nat>, line: nat)

  function Places(evs: seq<Event>): seq<Place> {
    if evs == [] then []
    else (if evs[0].what.Hit? then [Place(evs[0].route, evs[0].what.line)] else []) + Places(evs[1..])
  }

  function Routes(evs: seq<Event>, x: What): seq<seq<nat>> {
    if evs == [] then [] else (if evs[0].what == x then [evs[0].route] else []) + Routes(evs[1..], x)
  }

  /** One match behind each place. */
  ghost predicate Pairs(places: seq<Place>, found: seq<Match>, evs: seq<Event>) {
    && |places| == |found|
    && forall i :: 0 <= i < |places| ==> Event(places[i].route, Hit(places[i].line, found[i])) in evs
  }

  lemma {:induction false} PlacesPair(evs: seq<Event>)
    ensures Pairs(Places(evs), Sum(evs).found, evs)
    ensures forall e: Event :: e in evs && e.what.Hit? ==> Place(e.route, e.what.line) in Places(evs)
  {
    if evs != [] {
      var (e, later) := (evs[0], evs[1..]);
      PlacesPair(later);
      HeadAndTail(evs);
      var (p, f) := (Places(later), Sum(later).found);
      forall i | 0 <= i < |p| ensures Event(p[i].route, Hit(p[i].line, f[i])) in evs { }
      if e.what.Hit? {
        assert Places(evs) == [Place(e.route, e.what.line)] + p && Sum(evs).found == [e.what.m] + f;
      } else {
        assert Places(evs) == [] + p && Sum(evs).found == [] + f;
        assert Places(evs) == p && Sum(evs).found == f;
      }
    }
  }

  lemma {:induction false} RoutesCount(evs: seq<Event>, x: What)
    ensures x.Blind? ==> |Routes(evs, x)| == Sum(evs).unreadable
    ensures x.Fault? ==> |Routes(evs, x)| == Sum(evs).failures
    ensures forall r :: r in Routes(evs, x) <==> Event(r, x) in evs
  {
    if evs != [] {
      RoutesCount(evs[1..], x);
      HeadAndTail(evs);
      forall r ensures r in Routes(evs, x) <==> Event(r, x) in evs {
        assert r in Routes(evs, x) <==> (evs[0].what == x && r == evs[0].route) || r in Routes(evs[1..], x);
      }
    }
  }

  lemma {:induction false} RoutesDiffer(evs: seq<Event>, x: What)
    requires AllDifferent(evs)
    ensures forall i, j :: 0 <= i < j < |Routes(evs, x)| ==> Routes(evs, x)[i] != Routes(evs, x)[j]
  {
    if evs != [] {
      forall i, j | 0 <= i < j < |evs[1..]| ensures evs[1..][i] != evs[1..][j] { assert evs[i + 1] != evs[j + 1]; }
      RoutesDiffer(evs[1..], x);
      RoutesCount(evs[1..], x);
      var later := Routes(evs[1..], x);
      if evs[0].what == x {
        assert Routes(evs, x) == [evs[0].route] + later;
        forall j | 0 <= j < |later| ensures later[j] != evs[0].route {
          assert later[j] in later;
          var k :| 0 <= k < |evs[1..]| && evs[1..][k] == Event(later[j], x);
          assert evs[k + 1] != evs[0];
        }
      } else {
        assert Routes(evs, x) == later;
      }
    }
  }

  lemma {:induction false} PlacesOrdered(w: World, path: string, evs: seq<Event>, i: nat, j: nat)
    requires InOrder(w, path, evs) && i < j < |Places(evs)|
    ensures Before(w, path, Places(evs)[i].route, Places(evs)[i].line, Places(evs)[j].route, Places(evs)[j].line)
  {
    hide Before;
    var k := PlaceFrom(evs, i);
    var l := LaterPlace(evs, i, j, k);
  }

  /** A later place stands behind a later event. */
  lemma {:induction false} LaterPlace(evs: seq<Event>, i: nat, j: nat, k: nat) returns (l: nat)
    requires i < j < |Places(evs)| && k < |evs| && PlacesUpTo(evs, k) == i
    ensures k < l < |evs| && evs[l].what.Hit? && Places(evs)[j] == Place(evs[l].route, evs[l].what.line)
  {
    if k == 0 {
      var n := if evs[0].what.Hit? then j - 1 else j;
      assert Places(evs)[j] == Places(evs[1..])[n];
      var m := PlaceFrom(evs[1..], n);
      l := m + 1;
    } else {
      var first := if evs[0].what.Hit? then 1 else 0;
      assert Places(evs)[j] == Places(evs[1..])[j - first];
      var m := LaterPlace(evs[1..], i - first, j - first, k - 1);
      l := m + 1;
    }
  }

  /** How many places stand behind the first `k` events. */
  function PlacesUpTo(evs: seq<Event>, k: nat): nat
    requires k <= |evs|
  {
    if k == 0 then 0 else (if evs[0].what.Hit? then 1 else 0) + PlacesUpTo(evs[1..], k - 1)
  }

  lemma {:induction false} PlaceFrom(evs: seq<Event>, j: nat) returns (k: nat)
    requires j < |Places(evs)|
    ensures k < |evs| && evs[k].what.Hit? && Places(evs)[j] == Place(evs[k].route, evs[k].what.line)
    ensures PlacesUpTo(evs, k) == j
  {
    if evs[0].what.Hit? && j == 0 {
      k := 0;
    } else {
      var n := if evs[0].what.Hit? then j - 1 else j;
      assert Places(evs)[j] == Places(evs[1..])[n];
      k := PlaceFrom(evs[1..], n);
      k := k + 1;
    }
  }

  /** One place stands behind one match only. */
  lemma {:induction false} OneMatch(w: World, q: Query, path: string, depth: nat, route: seq<nat>, line: nat, m: Match, n: Match)
    requires EventIn(w, q, path, depth, route, Hit(line, m)) && EventIn(w, q, path, depth, route, Hit(line, n))
    ensures m == n
    decreases |route|
  {
    var e := w.list(path).entries[route[0]];
    var (child, rest) := (Under(path, e.name), route[1..]);
    if rest != [] {
      OneMatch(w, q, child, depth + 1, rest, line, m, n);
    } else {
      assert !EventIn(w, q, child, depth + 1, [], Hit(line, m)) && !EventIn(w, q, child, depth + 1, [], Hit(line, n));
    }
  }

  lemma {:induction false} PlacesDiffer(w: World, q: Query, evs: seq<Event>)
    requires AllDifferent(evs) && forall e: Event :: e in evs ==> EventIn(w, q, q.path, 0, e.route, e.what)
    ensures forall i, j :: 0 <= i < j < |Places(evs)| ==> Places(evs)[i] != Places(evs)[j]
  {
    hide EventIn;
    if evs != [] {
      var later := evs[1..];
      HeadAndTail(evs);
      forall i, j | 0 <= i < j < |later| ensures later[i] != later[j] { assert evs[i + 1] != evs[j + 1]; }
      PlacesDiffer(w, q, later);
      var p := Places(later);
      if evs[0].what.Hit? {
        assert Places(evs) == [Place(evs[0].route, evs[0].what.line)] + p;
        forall j | 0 <= j < |p| ensures p[j] != Place(evs[0].route, evs[0].what.line) {
          var k := PlaceFrom(later, j);
          assert evs[k + 1] == later[k] && evs[k + 1] != evs[0];
          if p[j] == Place(evs[0].route, evs[0].what.line) {
            OneMatch(w, q, q.path, 0, evs[0].route, evs[0].what.line, evs[0].what.m, later[k].what.m);
          }
        }
      } else {
        assert Places(evs) == p;
      }
    }
  }

  /** What a finished search hands out, from the tree alone. In text mode there is one match for each line
      that contains the term, of each readable text file at most `maxDepth` folders below the start; in
      name mode one for each entry whose shown name contains it. There is no other match, each carries
      the shown path, the line number and at most 32000 characters, and they come in the order of the
      names. */
  lemma {:induction false} FindsOneMatchPerPlace(w: World, q: Query, t: Tally) returns (places: seq<Place>)
    requires Finds(w, q, t)
    ensures |places| == |t.found|
    ensures forall i :: 0 <= i < |places| ==> HitAt(w, q, places[i].route, places[i].line, t.found[i])
    ensures forall i, j :: 0 <= i < j < |places| ==> places[i] != places[j]
    ensures forall i, j :: 0 <= i < j < |places| ==>
              Before(w, q.path, places[i].route, places[i].line, places[j].route, places[j].line)
    ensures forall route, line, m :: HitAt(w, q, route, line, m) ==> Place(route, line) in places
  {
    hide EventIn, HitAt, Before, InOrder, AllDifferent;
    var evs :| FolderExact(w, q, q.path, 0, evs) && Sum(evs) == t;
    places := Places(evs);
    forall e: Event | e in evs ensures EventIn(w, q, q.path, 0, e.route, e.what) { assert Event(e.route, e.what) in evs; }
    PlacesPair(evs);
    PlacesDiffer(w, q, evs);
    forall i, j | 0 <= i < j < |places|
      ensures Before(w, q.path, places[i].route, places[i].line, places[j].route, places[j].line)
    {
      PlacesOrdered(w, q.path, evs, i, j);
    }
    forall i | 0 <= i < |places| ensures HitAt(w, q, places[i].route, places[i].line, t.found[i]) {
      HitIff(w, q, places[i].route, places[i].line, t.found[i]);
    }
    forall route, line, m | HitAt(w, q, route, line, m) ensures Place(route, line) in places {
      HitIff(w, q, route, line, m);
      assert Event(route, Hit(line, m)) in evs;
    }
  }

  /** The places it could not read, and the errors it met, are counted exactly. */
  lemma {:induction false} FindsEveryObstacle(w: World, q: Query, t: Tally) returns (unreadable: seq<seq<nat>>, failed: seq<seq<nat>>)
    requires Finds(w, q, t)
    ensures |unreadable| == t.unreadable && |failed| == t.failures
    ensures forall r :: r in unreadable <==> EventIn(w, q, q.path, 0, r, Blind)
    ensures forall r :: r in failed <==> EventIn(w, q, q.path, 0, r, Fault)
    ensures forall i, j :: 0 <= i < j < |unreadable| ==> unreadable[i] != unreadable[j]
    ensures forall i, j :: 0 <= i < j < |failed| ==> failed[i] != failed[j]
  {
    hide EventIn, InOrder;
    var evs :| FolderExact(w, q, q.path, 0, evs) && Sum(evs) == t;
    unreadable, failed := Routes(evs, Blind), Routes(evs, Fault);
    RoutesCount(evs, Blind);
    RoutesCount(evs, Fault);
    RoutesDiffer(evs, Blind);
    RoutesDiffer(evs, Fault);
  }
}
