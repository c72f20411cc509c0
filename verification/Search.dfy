/** Paged search: `OwnerWorkspaceCore.search` with its explicit stack, pending queue,
    half-scanned file, work and text budgets, listing cache and single-use cursors. */
module Search {
  import opened Wrappers
  import opened SearchWalk
  import opened Sequences

  const PENDING_LIMIT := 200
  const WORK_LIMIT := 500
  const CURSOR_LIMIT := 64
  const LIFETIME := 60000

  datatype Frame = Frame(path: string, depth: nat, offset: nat)
  datatype Scan = Scan(path: string, nextLine: nat, version: string)
  datatype View = View(stack: seq<Frame>, pending: seq<Match>, scan: Option<Scan>, unreadable: nat)

  // ---- What an interrupted search still owes ----

  function ScanItems(w: World, q: Query, scan: Option<Scan>): seq<Item> {
    match scan
    case None => []
    case Some(s) =>
      match w.read(s.path)
      case ReadDenied => [Unreadable]
      case ReadFailed => [Failed]
      case Observed(version, screened) =>
        if version != s.version then [Unreadable]
        else [Step] + match screened
                      case None => []
                      case Some(lines) => LineItems(w, q, s.path, lines, s.nextLine)
  }

  function StackItems(w: World, q: Query, stack: seq<Frame>): seq<Item> {
    if stack == [] then []
    else
      var top := stack[|stack| - 1];
      FrameItems(w, q, top.path, top.depth, top.offset) + StackItems(w, q, stack[..|stack| - 1])
  }

  function Rest(w: World, q: Query, v: View): seq<Item> {
    Queue(v.pending) + (ScanItems(w, q, v.scan) + StackItems(w, q, v.stack))
  }

  /** Matches still owed, unreadable places met so far or still to meet, and errors still to meet. */
  function Total(w: World, q: Query, v: View): Tally {
    var rest := Rest(w, q, v);
    Tally(Founds(rest), v.unreadable + Blind(rest), Errors(rest))
  }

  function Start(q: Query): View {
    View([Frame(q.path, 0, 0)], [], None, 0)
  }

  function Owed(raw: seq<Match>, t: Tally): Tally {
    t.(found := raw + t.found)
  }

  predicate Finished(v: View) {
    v.stack == [] && v.pending == [] && v.scan == None
  }

  /** A page moved from `before` to `after` and took the matches `raw` out of the search. */
  ghost predicate PageOf(w: World, q: Query, before: View, raw: seq<Match>, after: View) {
    && Total(w, q, before) == Owed(raw, Total(w, q, after))
    && (Finished(after) || |Rest(w, q, after)| < |Rest(w, q, before)|)
  }

  /** A step that reports nothing loses nothing and leaves strictly less to do. */
  ghost predicate Moves(w: World, q: Query, before: View, after: View) {
    && Total(w, q, before) == Total(w, q, after)
    && |Rest(w, q, after)| < |Rest(w, q, before)|
    && |after.pending| <= PENDING_LIMIT
  }

  /** `n` is how far a file's lines were queued, starting at line `start`. */
  ghost predicate Queued(w: World, q: Query, child: string, version: string, lines: seq<string>,
                         start: nat, n: nat, pending: seq<Match>, scan: Option<Scan>) {
    if start >= |lines| then pending == [] && scan == None
    else
      && start < n <= |lines|
      && pending == Hits(w, q, child, lines, start, n)
      && |pending| <= PENDING_LIMIT
      && (n < |lines| ==> |pending| == PENDING_LIMIT)
      && scan == if n < |lines| then Some(Scan(child, n, version)) else None
  }

  // ---- One step at a time ----

  lemma {:induction false} TotalOf(w: World, q: Query, v: View)
    ensures var scan, stack := ScanItems(w, q, v.scan), StackItems(w, q, v.stack);
            Total(w, q, v) == Tally(v.pending + (Founds(scan) + Founds(stack)),
                                    v.unreadable + Blind(scan) + Blind(stack),
                                    Errors(scan) + Errors(stack))
  {
    var scan, stack := ScanItems(w, q, v.scan), StackItems(w, q, v.stack);
    FoundsConcat(Queue(v.pending), scan + stack);
    CountsConcat(Queue(v.pending), scan + stack);
    FoundsConcat(scan, stack);
    CountsConcat(scan, stack);
    QueueReports(v.pending);
  }

  lemma {:induction false} EmitStep(w: World, q: Query, v: View)
    requires v.pending != []
    ensures var next := v.(pending := v.pending[1..]);
            && Total(w, q, v) == Owed([v.pending[0]], Total(w, q, next))
            && |Rest(w, q, next)| < |Rest(w, q, v)|
  {
    hide Founds, ScanItems, StackItems, Total;
    var next := v.(pending := v.pending[1..]);
    TotalOf(w, q, v);
    TotalOf(w, q, next);
    var first, tail := [v.pending[0]], v.pending[1..];
    var others := Founds(ScanItems(w, q, v.scan)) + Founds(StackItems(w, q, v.stack));
    assert first + tail == v.pending;
    Associates(first, tail, others);
  }

  /** Queued lines and the remembered rest of the file report the file's own lines. */
  lemma {:induction false} QueuedReports(w: World, q: Query, child: string, version: string, lines: seq<string>,
                      start: nat, n: nat, pending: seq<Match>, scan: Option<Scan>)
    requires w.read(child) == Observed(version, Some(lines))
    requires Queued(w, q, child, version, lines, start, n, pending, scan)
    ensures var all, rest := LineItems(w, q, child, lines, start), ScanItems(w, q, scan);
            && Founds(all) == pending + Founds(rest)
            && Blind(all) == Blind(rest) && Errors(all) == Errors(rest)
            && |pending| + |rest| < 1 + |all|
  {
    if start < |lines| {
      LinesSplit(w, q, child, lines, start, n);
      StepReports(LineItems(w, q, child, lines, n));
    }
  }

  /** The queue, the remembered scan and the unreadable count hold exactly what `own` reports. */
  ghost predicate Holds(w: World, q: Query, own: seq<Item>, pending: seq<Match>, scan: Option<Scan>, unreadable: nat) {
    var rest := ScanItems(w, q, scan);
    && Founds(own) == pending + Founds(rest)
    && Blind(own) == unreadable + Blind(rest)
    && Errors(own) == Errors(rest)
    && |pending| + |rest| < 1 + |own|
  }

  lemma {:induction false} OwnThenTail(own: seq<Item>, tail: seq<Item>)
    ensures var all := [Step] + (own + tail);
            && Founds(all) == Founds(own) + Founds(tail)
            && Blind(all) == Blind(own) + Blind(tail)
            && Errors(all) == Errors(own) + Errors(tail)
  {
    StepReports(own + tail);
    FoundsConcat(own, tail);
    CountsConcat(own, tail);
  }

  /** Replacing the owed items `own` by a queue and a scan that hold them is a proper step. */
  lemma {:induction false} Requeued(w: World, q: Query, v: View, after: View, own: seq<Item>, tail: seq<Item>)
    requires v.pending == [] && after.unreadable >= v.unreadable && |after.pending| <= PENDING_LIMIT
    requires ScanItems(w, q, v.scan) + StackItems(w, q, v.stack) == [Step] + (own + tail)
    requires StackItems(w, q, after.stack) == tail
    requires Holds(w, q, own, after.pending, after.scan, after.unreadable - v.unreadable)
    ensures Moves(w, q, v, after)
  {
    OwnThenTail(own, tail);
    assert Rest(w, q, v) == [Step] + (own + tail);
    TotalOf(w, q, after);
    Associates(after.pending, Founds(ScanItems(w, q, after.scan)), Founds(tail));
  }

  lemma {:induction false} ScanStep(w: World, q: Query, v: View, lines: seq<string>, n: nat, after: View)
    requires v.pending == [] && v.scan.Some?
    requires w.read(v.scan.value.path) == Observed(v.scan.value.version, Some(lines))
    requires Queued(w, q, v.scan.value.path, v.scan.value.version, lines, v.scan.value.nextLine, n, after.pending, after.scan)
    requires after.stack == v.stack && after.unreadable == v.unreadable
    ensures Moves(w, q, v, after)
  {
    var s := v.scan.value;
    var own, tail := LineItems(w, q, s.path, lines, s.nextLine), StackItems(w, q, v.stack);
    QueuedReports(w, q, s.path, s.version, lines, s.nextLine, n, after.pending, after.scan);
    Associates([Step], own, tail);
    Requeued(w, q, v, after, own, tail);
  }

  /** The scan is given up: its file can no longer be read, changed, or is not text. */
  lemma {:induction false} ScanDropped(w: World, q: Query, v: View, after: View)
    requires v.pending == [] && v.scan.Some?
    requires after == v.(scan := None, unreadable := after.unreadable)
    requires match w.read(v.scan.value.path)
             case ReadDenied => after.unreadable == v.unreadable + 1
             case ReadFailed => false
             case Observed(version, screened) =>
               if version != v.scan.value.version then after.unreadable == v.unreadable + 1
               else screened == None && after.unreadable == v.unreadable
    ensures Moves(w, q, v, after)
  {
    TotalOf(w, q, v);
    TotalOf(w, q, after);
    StepReports([]);
    assert [Step] + [] == [Step];
  }

  lemma {:induction false} StackSplit(w: World, q: Query, stack: seq<Frame>, top: Frame)
    ensures StackItems(w, q, stack + [top])
         == FrameItems(w, q, top.path, top.depth, top.offset) + StackItems(w, q, stack)
  {
    assert (stack + [top])[..|stack|] == stack;
  }

  lemma {:induction false} FrameDenied(w: World, q: Query, v: View, after: View)
    requires v.pending == [] && v.scan == None && v.stack != []
    requires Entries(w, v.stack[|v.stack| - 1].path) == ListDenied
    requires after == v.(stack := v.stack[..|v.stack| - 1], unreadable := v.unreadable + 1)
    ensures Moves(w, q, v, after)
  {
    TotalOf(w, q, v);
    TotalOf(w, q, after);
    FoundsConcat([Unreadable], StackItems(w, q, after.stack));
    CountsConcat([Unreadable], StackItems(w, q, after.stack));
  }

  lemma {:induction false} FramePopped(w: World, q: Query, v: View, after: View)
    requires v.pending == [] && v.scan == None && v.stack != []
    requires var top := v.stack[|v.stack| - 1];
             Entries(w, top.path).Listed? && top.offset >= |Entries(w, top.path).entries|
    requires after == v.(stack := v.stack[..|v.stack| - 1])
    ensures Moves(w, q, v, after)
  {
    var top := v.stack[|v.stack| - 1];
    var es := Entries(w, top.path).entries;
    if top.offset == |es| { assert es[top.offset..] == []; }
    assert FrameItems(w, q, top.path, top.depth, top.offset) == [Step];
    TotalOf(w, q, v);
    TotalOf(w, q, after);
    StepReports(StackItems(w, q, after.stack));
  }

  /** The next entry of the top folder, at its place in the items still owed. */
  lemma {:induction false} FrameEntry(w: World, q: Query, below: seq<Frame>, top: Frame, es: seq<Entry>)
    requires Entries(w, top.path) == Listed(es) && top.offset < |es|
    ensures StackItems(w, q, below + [top])
         == EntryItems(w, q, top.path, top.depth, es[top.offset])
            + StackItems(w, q, below + [top.(offset := top.offset + 1)])
  {
    StackSplit(w, q, below, top);
    StackSplit(w, q, below, top.(offset := top.offset + 1));
    assert es[top.offset..][1..] == es[top.offset + 1..];
    var first := EntryItems(w, q, top.path, top.depth, es[top.offset]);
    var later := ListItems(w, q, top.path, top.depth, es[top.offset + 1..]);
    Associates(first, later, StackItems(w, q, below));
  }

  /** What one entry leaves behind: its own report queued, its folder (if any) pushed. */
  lemma {:induction false} EntryStep(w: World, q: Query, v: View, below: seq<Frame>, top: Frame, es: seq<Entry>, after: View)
    requires v.pending == [] && v.scan == None && v.stack == below + [top]
    requires Entries(w, top.path) == Listed(es) && top.offset < |es|
    requires w.accepts(Child(top.path, es[top.offset].name))
    requires |after.pending| <= PENDING_LIMIT && after.unreadable >= v.unreadable
    requires after.stack == Pushed(w, q, below, top, es[top.offset])
    requires Holds(w, q, SelfItems(w, q, Child(top.path, es[top.offset].name), es[top.offset]),
                   after.pending, after.scan, after.unreadable - v.unreadable)
    ensures Moves(w, q, v, after)
  {
    var e := es[top.offset];
    var own := SelfItems(w, q, Child(top.path, e.name), e);
    var tail := StackItems(w, q, after.stack);
    EntryTail(w, q, below, top, es);
    assert [] + StackItems(w, q, v.stack) == StackItems(w, q, v.stack);
    Requeued(w, q, v, after, own, tail);
  }

  lemma {:induction false} EntryTail(w: World, q: Query, below: seq<Frame>, top: Frame, es: seq<Entry>)
    requires Entries(w, top.path) == Listed(es) && top.offset < |es|
    requires w.accepts(Child(top.path, es[top.offset].name))
    ensures StackItems(w, q, below + [top])
         == [Step] + (SelfItems(w, q, Child(top.path, es[top.offset].name), es[top.offset])
                      + StackItems(w, q, Pushed(w, q, below, top, es[top.offset])))
  {
    hide StackItems, Pushed, FrameItems;
    var e := es[top.offset];
    var own := SelfItems(w, q, Child(top.path, e.name), e);
    var sub := Below(w, q, top, e);
    var rest := StackItems(w, q, below + [top.(offset := top.offset + 1)]);
    FrameEntry(w, q, below, top, es);
    PushedItems(w, q, below, top, e);
    calc {
      StackItems(w, q, below + [top]);
      ([Step] + (own + sub)) + rest;
      { Associates([Step], own + sub, rest); }
      [Step] + ((own + sub) + rest);
      { Associates(own, sub, rest); }
      [Step] + (own + (sub + rest));
    }
  }

  /** Everything below a folder entry that is still within the depth limit. */
  function Below(w: World, q: Query, top: Frame, e: Entry): seq<Item> {
    if e.kind.Directory? && top.depth < q.maxDepth
    then FrameItems(w, q, Child(top.path, e.name), top.depth + 1, 0) else []
  }

  lemma {:induction false} PushedItems(w: World, q: Query, below: seq<Frame>, top: Frame, e: Entry)
    ensures StackItems(w, q, Pushed(w, q, below, top, e))
         == Below(w, q, top, e) + StackItems(w, q, below + [top.(offset := top.offset + 1)])
  {
    var base := below + [top.(offset := top.offset + 1)];
    if e.kind.Directory? && top.depth < q.maxDepth {
      StackSplit(w, q, base, Frame(Child(top.path, e.name), top.depth + 1, 0));
    } else {
      assert Pushed(w, q, below, top, e) == base;
      assert [] + StackItems(w, q, base) == StackItems(w, q, base);
    }
  }

  function Pushed(w: World, q: Query, below: seq<Frame>, top: Frame, e: Entry): seq<Frame> {
    below + [top.(offset := top.offset + 1)]
    + (if e.kind.Directory? && top.depth < q.maxDepth then [Frame(Child(top.path, e.name), top.depth + 1, 0)] else [])
  }

  lemma {:induction false} HitsExtend(w: World, q: Query, child: string, lines: seq<string>, from: nat, to: nat)
    requires from <= to < |lines|
    ensures Hits(w, q, child, lines, from, to + 1)
         == Hits(w, q, child, lines, from, to) + LineHits(w, q, child, lines[to], to)
    decreases |lines| - from
  {
    var last := LineHits(w, q, child, lines[to], to);
    if from == to {
      assert Hits(w, q, child, lines, to + 1, to + 1) == [];
      assert last + [] == [] + last;
    } else {
      HitsExtend(w, q, child, lines, from + 1, to);
      var first := LineHits(w, q, child, lines[from], from);
      var mid := Hits(w, q, child, lines, from + 1, to);
      assert (first + mid) + last == first + (mid + last);
    }
  }
}
