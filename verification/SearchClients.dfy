/** Any number of clients searching at once: their requests interleaved at every await, and strangers
    that present cursors of their own or of anybody else. */
module SearchClients {
  import opened SearchWalk
  import opened Search
  import opened SearchService
  import opened SearchCursors
  import SearchHits
  import opened Sequences
  import opened Wrappers

  /** Where a client's search is: `Busy` between the opening of a request and its end, with the page
      produced so far; `Holding` the cursor of the rest. */
  datatype Place =
    | Idle
    | Busy(kept: Kept, page: Option<seq<Match>>)
    | Holding(cursor: string)
    | Done(unreadable: nat)
    | Gone

  datatype Client = Client(root: string, query: Query, got: seq<Match>, place: Place)

  /** The cursor table, the clients, and the cursors ever handed out. */
  datatype State = State(table: map<string, Kept>, clients: seq<Client>, used: set<string>)

  const NOBODY := State(map[], [], {})

  datatype Step =
    | Arrive(root: string, query: Query)
    | Begin(i: nat, now: int, admitted: bool)
    | Turn(i: nat, raw: seq<Match>, after: View)
    | End(i: nat, id: string, later: int, finished: bool)
    | Break(i: nat)
    | StrangerOpens(root: string, query: Query, cursor: Option<string>, now: int)
    | StrangerKeeps(id: string, kept: Kept, now: int)

  predicate IsBusy(s: State, i: nat) {
    i < |s.clients| && s.clients[i].place.Busy?
  }

  /** New cursors are fresh; a page is one the search can produce. */
  ghost predicate Enabled(w: World, s: State, e: Step) {
    match e
    case Begin(i, _, _) => i < |s.clients| && (s.clients[i].place.Idle? || s.clients[i].place.Holding?)
    case Turn(i, raw, after) =>
      && IsBusy(s, i) && s.clients[i].place.page.None?
      && PageOf(w, s.clients[i].query, s.clients[i].place.kept.view, raw, after)
    case End(i, id, _, _) => IsBusy(s, i) && s.clients[i].place.page.Some? && id !in s.used
    case Break(i) => IsBusy(s, i)
    case StrangerKeeps(id, _, _) => id !in s.used
    case _ => true
  }

  function At(s: State, i: nat, place: Place): State
    requires i < |s.clients|
  {
    s.(clients := s.clients[i := s.clients[i].(place := place)])
  }

  /** A request opens: a redeemed cursor is spent even if the journal refuses the observation. */
  function Begun(s: State, i: nat, now: int, admitted: bool): State
    requires i < |s.clients|
  {
    var c := s.clients[i];
    var cursor := if c.place.Holding? then Some(c.place.cursor) else None;
    var t := s.(table := AfterOpen(s.table, c.root, c.query, cursor, now));
    if admitted && MayOpen(s.table, c.root, c.query, cursor, now)
    then At(t, i, Busy(Ahead(s.table, c.root, c.query, cursor, now), None))
    else At(t, i, Gone)
  }

  /** A request ends: the rest is kept under a new cursor if there is one to keep and it may be; the page
      reaches the client if the journal takes the observation's end as well. */
  function Ended(s: State, i: nat, id: string, later: int, finished: bool): (r: State)
    requires IsBusy(s, i) && s.clients[i].place.page.Some?
    ensures |r.clients| == |s.clients|
  {
    var c := s.clients[i];
    var (k, page) := (c.place.kept, c.place.page.value);
    if Finished(k.view) then
      At(if finished then s.(clients := s.clients[i := c.(got := c.got + page)]) else s, i,
         if finished then Done(k.view.unreadable) else Gone)
    else if !MayKeep(s.table, k, later) then At(s, i, Gone)
    else
      var t := s.(table := s.table[id := k], used := s.used + {id});
      if finished then t.(clients := t.clients[i := c.(got := c.got + page, place := Holding(id))]) else At(t, i, Gone)
  }

  function Next(s: State, e: Step): State {
    match e
    case Arrive(root, q) => s.(clients := s.clients + [Client(root, q, [], Idle)])
    case Begin(i, now, admitted) => if i < |s.clients| then Begun(s, i, now, admitted) else s
    case Turn(i, raw, after) =>
      if IsBusy(s, i) then At(s, i, Busy(s.clients[i].place.kept.(view := after), Some(raw))) else s
    case End(i, id, later, finished) =>
      if IsBusy(s, i) && s.clients[i].place.page.Some? then Ended(s, i, id, later, finished) else s
    case Break(i) => if i < |s.clients| then At(s, i, Gone) else s
    case StrangerOpens(root, q, cursor, now) => s.(table := AfterOpen(s.table, root, q, cursor, now))
    case StrangerKeeps(id, k, now) =>
      s.(table := if MayKeep(s.table, k, now) then s.table[id := k] else s.table, used := s.used + {id})
  }

  function Run(s: State, steps: seq<Step>): State
    decreases |steps|
  {
    if steps == [] then s else Run(Next(s, steps[0]), steps[1..])
  }

  ghost predicate Possible(w: World, s: State, steps: seq<Step>)
    decreases |steps|
  {
    steps == [] || (Enabled(w, s, steps[0]) && Possible(w, Next(s, steps[0]), steps[1..]))
  }

  // ----- the invariant -----

  /** The whole walk of a search is what was handed out of it and what it still owes. */
  ghost predicate Balanced(w: World, q: Query, out: seq<Match>, v: View) {
    WalkFolder(w, q, q.path, 0) == Owed(out, Total(w, q, v))
  }

  function Out(c: Client): seq<Match> {
    if c.place.Busy? && c.place.page.Some? then c.got + c.place.page.value else c.got
  }

  ghost predicate ClientFits(w: World, table: map<string, Kept>, used: set<string>, c: Client) {
    && c.got <= WalkFolder(w, c.query, c.query.path, 0).found
    && match c.place
       case Idle => c.got == []
       case Busy(k, _) => k.root == c.root && k.query == c.query && Balanced(w, c.query, Out(c), k.view)
       case Holding(id) =>
         id in used && (id in table ==>
           table[id].root == c.root && table[id].query == c.query && Balanced(w, c.query, c.got, table[id].view))
       case Done(u) => WalkFolder(w, c.query, c.query.path, 0) == Tally(c.got, u, 0)
       case Gone => true
  }

  ghost predicate Inv(w: World, s: State) {
    && s.table.Keys <= s.used
    && (forall i :: 0 <= i < |s.clients| ==> ClientFits(w, s.table, s.used, s.clients[i]))
    && (forall i, j :: 0 <= i < j < |s.clients| && s.clients[i].place.Holding? && s.clients[j].place.Holding? ==>
          s.clients[i].place.cursor != s.clients[j].place.cursor)
  }

  /** A client that takes no part in a step only sees cursors disappear, or new ones appear. */
  lemma {:induction false} BystanderFits(w: World, t: map<string, Kept>, u: map<string, Kept>, used: set<string>, more: set<string>,
                                         c: Client)
    requires ClientFits(w, t, used, c) && used <= more
    requires forall id :: id in u && id in used ==> id in t && u[id] == t[id]
    ensures ClientFits(w, u, more, c)
  {
  }

  lemma {:induction false} OpeningOnlyRemoves(t: map<string, Kept>, root: string, q: Query, cursor: Option<string>, now: int)
    ensures forall id :: id in AfterOpen(t, root, q, cursor, now) ==> id in t && AfterOpen(t, root, q, cursor, now)[id] == t[id]
    ensures AfterOpen(t, root, q, cursor, now).Keys <= t.Keys
  {
  }

  lemma {:induction false} BalancedPrefix(w: World, q: Query, out: seq<Match>, v: View)
    requires Balanced(w, q, out, v)
    ensures out <= WalkFolder(w, q, q.path, 0).found
  {
  }

  lemma {:induction false} StartBalanced(w: World, q: Query)
    ensures Balanced(w, q, [], Start(q))
  {
    StartTotal(w, q);
    assert [] + Total(w, q, Start(q)).found == Total(w, q, Start(q)).found;
  }

  lemma {:induction false} PageBalanced(w: World, q: Query, out: seq<Match>, before: View, raw: seq<Match>, after: View)
    requires Balanced(w, q, out, before) && PageOf(w, q, before, raw, after)
    ensures Balanced(w, q, out + raw, after)
  {
    Associates(out, raw, Total(w, q, after).found);
  }

  lemma {:induction false} FinishedBalanced(w: World, q: Query, out: seq<Match>, v: View)
    requires Balanced(w, q, out, v) && Finished(v)
    ensures WalkFolder(w, q, q.path, 0) == Tally(out, v.unreadable, 0)
  {
    TotalOf(w, q, v);
    assert out + [] == out;
  }

  /** The client whose request a step is about. */
  lemma {:induction false} BegunFits(w: World, s: State, i: nat, now: int, admitted: bool)
    requires Inv(w, s) && Enabled(w, s, Begin(i, now, admitted))
    ensures ClientFits(w, Begun(s, i, now, admitted).table, s.used, Begun(s, i, now, admitted).clients[i])
  {
    hide WalkFolder, Total, Start, AfterOpen, Balanced;
    var c := s.clients[i];
    assert ClientFits(w, s.table, s.used, c);
    StartBalanced(w, c.query);
    var cursor := if c.place.Holding? then Some(c.place.cursor) else None;
    OpensAsAsked(s.table, c.root, c.query, cursor, now);
  }

  lemma {:induction false} TurnFits(w: World, s: State, i: nat, raw: seq<Match>, after: View)
    requires Inv(w, s) && Enabled(w, s, Turn(i, raw, after))
    ensures ClientFits(w, s.table, s.used, Next(s, Turn(i, raw, after)).clients[i])
  {
    hide WalkFolder, Total, PageOf, Balanced;
    var c := s.clients[i];
    assert ClientFits(w, s.table, s.used, c);
    PageBalanced(w, c.query, c.got, c.place.kept.view, raw, after);
  }

  lemma {:induction false} EndedFits(w: World, s: State, i: nat, id: string, later: int, finished: bool)
    requires Inv(w, s) && Enabled(w, s, End(i, id, later, finished))
    ensures var v := Ended(s, i, id, later, finished); ClientFits(w, v.table, v.used, v.clients[i])
  {
    hide WalkFolder, Total, Finished, Balanced;
    var c := s.clients[i];
    assert ClientFits(w, s.table, s.used, c);
    BalancedPrefix(w, c.query, Out(c), c.place.kept.view);
    if Finished(c.place.kept.view) { FinishedBalanced(w, c.query, Out(c), c.place.kept.view); }
  }

  /** What a step does to the table. */
  lemma {:induction false} TableMoves(w: World, s: State, e: Step)
    requires Inv(w, s) && Enabled(w, s, e)
    ensures s.used <= Next(s, e).used && Next(s, e).table.Keys <= Next(s, e).used
    ensures forall id :: id in Next(s, e).table && id in s.used ==> id in s.table && Next(s, e).table[id] == s.table[id]
  {
    hide AfterOpen, ClientFits, PageOf;
    match e
    case Begin(i, now, _) =>
      var c := s.clients[i];
      OpeningOnlyRemoves(s.table, c.root, c.query, if c.place.Holding? then Some(c.place.cursor) else None, now);
    case StrangerOpens(root, q, cursor, now) => OpeningOnlyRemoves(s.table, root, q, cursor, now);
    case _ =>
  }

  function Subject(e: Step): Option<nat> {
    match e
    case Begin(i, _, _) => Some(i)
    case Turn(i, _, _) => Some(i)
    case End(i, _, _, _) => Some(i)
    case Break(i) => Some(i)
    case _ => None
  }

  lemma {:induction false} OthersUntouched(s: State, e: Step, i: nat)
    requires i < |s.clients| && Subject(e) != Some(i)
    ensures i < |Next(s, e).clients| && Next(s, e).clients[i] == s.clients[i]
  {
    hide AfterOpen;
  }

  lemma {:induction false} EveryoneFits(w: World, s: State, e: Step, i: nat)
    requires Inv(w, s) && Enabled(w, s, e) && i < |Next(s, e).clients|
    ensures var v := Next(s, e); ClientFits(w, v.table, v.used, v.clients[i])
  {
    hide ClientFits, AfterOpen, PageOf;
    TableMoves(w, s, e);
    if i >= |s.clients| {
      NewcomerFits(w, Next(s, e).table, Next(s, e).used, Next(s, e).clients[i]);
    } else if Subject(e) != Some(i) {
      OthersUntouched(s, e, i);
      assert ClientFits(w, s.table, s.used, s.clients[i]);
      BystanderFits(w, s.table, Next(s, e).table, s.used, Next(s, e).used, s.clients[i]);
    } else {
      match e {
        case Begin(_, now, admitted) => BegunFits(w, s, i, now, admitted);
        case Turn(_, raw, after) => TurnFits(w, s, i, raw, after);
        case End(_, id, later, finished) => EndedFits(w, s, i, id, later, finished);
        case Break(_) =>
          assert ClientFits(w, s.table, s.used, s.clients[i]);
          GoneFits(w, s.table, s.used, s.clients[i]);
      }
    }
  }

  lemma {:induction false} NewcomerFits(w: World, t: map<string, Kept>, used: set<string>, c: Client)
    requires c.got == [] && c.place.Idle?
    ensures ClientFits(w, t, used, c)
  {
  }

  lemma {:induction false} GoneFits(w: World, t: map<string, Kept>, used: set<string>, c: Client)
    requires ClientFits(w, t, used, c)
    ensures ClientFits(w, t, used, c.(place := Gone))
  {
  }

  /** A cursor is new when a client gets it, so no two clients hold one. */
  lemma {:induction false} CursorsStayApart(w: World, s: State, e: Step, i: nat, j: nat)
    requires Inv(w, s) && Enabled(w, s, e) && i < j < |Next(s, e).clients|
    requires Next(s, e).clients[i].place.Holding? && Next(s, e).clients[j].place.Holding?
    ensures Next(s, e).clients[i].place.cursor != Next(s, e).clients[j].place.cursor
  {
    hide AfterOpen, PageOf, Balanced, WalkFolder;
    HeldBefore(w, s, e, i);
    HeldBefore(w, s, e, j);
  }

  lemma {:induction false} HeldBefore(w: World, s: State, e: Step, i: nat)
    requires Inv(w, s) && Enabled(w, s, e) && i < |Next(s, e).clients| && Next(s, e).clients[i].place.Holding?
    ensures var id := Next(s, e).clients[i].place.cursor;
            if i < |s.clients| && s.clients[i].place.Holding? then s.clients[i].place.cursor == id && id in s.used
            else e.End? && e.i == i && e.id == id && id !in s.used
  {
    hide AfterOpen, PageOf, Balanced, WalkFolder;
    if i < |s.clients| { assert ClientFits(w, s.table, s.used, s.clients[i]); }
  }

  lemma {:induction false} StepKeepsInv(w: World, s: State, e: Step)
    requires Inv(w, s) && Enabled(w, s, e)
    ensures Inv(w, Next(s, e))
  {
    hide ClientFits, Next, Enabled;
    TableMoves(w, s, e);
    var v := Next(s, e);
    forall i | 0 <= i < |v.clients| ensures ClientFits(w, v.table, v.used, v.clients[i]) { EveryoneFits(w, s, e, i); }
    forall i, j | 0 <= i < j < |v.clients| && v.clients[i].place.Holding? && v.clients[j].place.Holding?
      ensures v.clients[i].place.cursor != v.clients[j].place.cursor
    {
      CursorsStayApart(w, s, e, i, j);
    }
  }

  lemma {:induction false} RunsKeepInv(w: World, s: State, steps: seq<Step>)
    requires Inv(w, s) && Possible(w, s, steps)
    ensures Inv(w, Run(s, steps))
    decreases |steps|
  {
    if steps != [] {
      StepKeepsInv(w, s, steps[0]);
      RunsKeepInv(w, Next(s, steps[0]), steps[1..]);
    }
  }

  // ----- the service's own requests are such steps -----

  /** A request that is answered is three steps of its client: it opens, produces its page and ends. The
      table, what the client has received and the cursor it then holds are those of the machine. */
  lemma {:induction false} RequestIsARun(w: World, s: State, i: nat, u: map<string, Kept>, now: int, later: int, id: string,
                                         reply: Reply, before: Kept, after: View, raw: seq<Match>)
    requires i < |s.clients| && (s.clients[i].place.Idle? || s.clients[i].place.Holding?) && s.table.Keys <= s.used && id !in s.used
    requires var c := s.clients[i];
             var cursor := if c.place.Holding? then Some(c.place.cursor) else None;
             reply.Page? && Requested(w, s.table, u, c.root, c.query, cursor, now, later, id, true, reply, before, after, raw)
    ensures var path := [Begin(i, now, true), Turn(i, raw, after), End(i, id, later, true)];
            var v := Run(s, path);
            && Possible(w, s, path) && v.table == u && |v.clients| == |s.clients|
            && v.clients[i] == s.clients[i].(got := s.clients[i].got + raw,
                                             place := if reply.cursor.Some? then Holding(reply.cursor.value) else Done(after.unreadable))
            && forall j :: 0 <= j < |s.clients| && j != i ==> v.clients[j] == s.clients[j]
  {
    var c := s.clients[i];
    var cursor := if c.place.Holding? then Some(c.place.cursor) else None;
    var (a, b, e) := (Begin(i, now, true), Turn(i, raw, after), End(i, id, later, true));
    ThreeSteps(w, s, a, b, e);
    OpeningOnlyRemoves(s.table, c.root, c.query, cursor, now);
    AnswerParts(w, c.query, before.view, reply, raw, after);
    OpensSo(w, s, i, now);
    var t := AfterOpen(s.table, c.root, c.query, cursor, now);
    var (busy, done) := (c.(place := Busy(before, None)), c.(place := Busy(before.(view := after), Some(raw))));
    var s1 := State(t, s.clients[i := busy], s.used);
    var s2 := State(t, s.clients[i := done], s.used);
    hide AfterOpen, MayOpen, Ahead, Total, PageOf, Shows, Finished, MayKeep, Run, Possible, Next, Answers, Keeps;
    TurnsSo(w, s1, i, raw, after);
    Twice(s.clients, i, busy, done);
    EndsSo(s2, i, id, later, c.got);
    var last := c.(got := c.got + raw, place := if reply.cursor.Some? then Holding(id) else Done(after.unreadable));
    Twice(s.clients, i, done, last);
    if reply.cursor.Some? { KeptAgain(t, u, id, before.(view := after)); }
  }

  /** A request of a client that gets its search. */
  lemma {:induction false} OpensSo(w: World, s: State, i: nat, now: int)
    requires i < |s.clients| && (s.clients[i].place.Idle? || s.clients[i].place.Holding?)
    requires var c := s.clients[i];
             MayOpen(s.table, c.root, c.query, if c.place.Holding? then Some(c.place.cursor) else None, now)
    ensures var c := s.clients[i];
            var cursor := if c.place.Holding? then Some(c.place.cursor) else None;
            && Enabled(w, s, Begin(i, now, true))
            && Next(s, Begin(i, now, true)) ==
               State(AfterOpen(s.table, c.root, c.query, cursor, now),
                     s.clients[i := c.(place := Busy(Ahead(s.table, c.root, c.query, cursor, now), None))], s.used)
  {
    hide AfterOpen, MayOpen, Ahead;
  }

  lemma {:induction false} TurnsSo(w: World, s: State, i: nat, raw: seq<Match>, after: View)
    requires i < |s.clients| && s.clients[i].place.Busy? && s.clients[i].place.page.None?
    requires PageOf(w, s.clients[i].query, s.clients[i].place.kept.view, raw, after)
    ensures var c := s.clients[i];
            && Enabled(w, s, Turn(i, raw, after))
            && Next(s, Turn(i, raw, after)) ==
               s.(clients := s.clients[i := c.(place := Busy(c.place.kept.(view := after), Some(raw)))])
  {
    hide PageOf;
  }

  /** The end of a request that the journal takes and whose rest can be kept. */
  lemma {:induction false} EndsSo(s: State, i: nat, id: string, later: int, got: seq<Match>)
    requires IsBusy(s, i) && s.clients[i].place.page.Some? && s.clients[i].got == got
    requires !Finished(s.clients[i].place.kept.view) ==> MayKeep(s.table, s.clients[i].place.kept, later)
    ensures var (c, v) := (s.clients[i], Next(s, End(i, id, later, true)));
            var k := c.place.kept;
            && v.table == (if Finished(k.view) then s.table else s.table[id := k])
            && v.clients == s.clients[i := c.(got := got + c.place.page.value,
                                              place := if Finished(k.view) then Done(k.view.unreadable) else Holding(id))]
  {
    hide Finished, MayKeep;
    var c := s.clients[i];
    var told := c.(got := got + c.place.page.value);
    Twice(s.clients, i, told, told.(place := Done(c.place.kept.view.unreadable)));
  }

  lemma {:induction false} Twice(list: seq<Client>, i: nat, c: Client, d: Client)
    requires i < |list|
    ensures list[i := c][i := d] == list[i := d]
  {
  }

  lemma {:induction false} ThreeSteps(w: World, s: State, a: Step, b: Step, e: Step)
    ensures Run(s, [a, b, e]) == Next(Next(Next(s, a), b), e)
    ensures Possible(w, s, [a, b, e]) <==> Enabled(w, s, a) && Enabled(w, Next(s, a), b) && Enabled(w, Next(Next(s, a), b), e)
  {
    hide Next, Enabled;
    var (three, two, one) := ([a, b, e], [b, e], [e]);
    assert three[1..] == two && two[1..] == one && one[1..] == [];
    var (x, y) := (Next(s, a), Next(Next(s, a), b));
    assert Run(y, one) == Run(Next(y, e), []) && Run(x, two) == Run(y, one) && Run(s, three) == Run(x, two);
    assert Possible(w, y, one) <==> Enabled(w, y, e) && Possible(w, Next(y, e), []);
    assert Possible(w, x, two) <==> Enabled(w, x, b) && Possible(w, y, one);
  }

  lemma {:induction false} KeptAgain(t: map<string, Kept>, u: map<string, Kept>, id: string, k: Kept)
    requires u - {id} == t && KeptUnder(u, id, k)
    ensures u == t[id := k]
  {
    assert forall c :: c in u <==> c in t || c == id;
    forall c | c in u && c != id ensures u[c] == t[c] { assert (u - {id})[c] == u[c]; }
  }

  // ----- what every client gets -----

  /** A stranger's rest is kept while there is room and its lifetime lasts. */
  lemma {:induction false} StrangersKeep(s: State, id: string, k: Kept, now: int)
    ensures Next(s, StrangerKeeps(id, k, now)).table == if |s.table| < 64 && now < k.expiresAt then s.table[id := k] else s.table
    ensures Next(s, StrangerKeeps(id, k, now)).clients == s.clients
  {
  }

  /** In every run, whatever strangers and other clients do: what a client has received is a beginning of
      its own recursive walk; with what its search still owes, as long as the search is there, it is the
      whole walk; and a client that is done has received exactly the walk. */
  lemma {:induction false} EveryClientGetsItsWalk(w: World, steps: seq<Step>, i: nat)
    requires Possible(w, NOBODY, steps) && i < |Run(NOBODY, steps).clients|
    ensures var s := Run(NOBODY, steps);
            var c := s.clients[i];
            var walk := WalkFolder(w, c.query, c.query.path, 0);
            && c.got <= walk.found
            && (c.place.Done? ==> walk == Tally(c.got, c.place.unreadable, 0) && SearchHits.Finds(w, c.query, walk))
            && (c.place.Holding? && c.place.cursor in s.table ==>
                  walk == Owed(c.got, Total(w, c.query, s.table[c.place.cursor].view)))
            && (c.place.Busy? ==> walk == Owed(Out(c), Total(w, c.query, c.place.kept.view)))
  {
    RunsKeepInv(w, NOBODY, steps);
    hide WalkFolder, Total, Run, Possible, SearchHits.Finds;
    SearchHits.WalkFinds(w, Run(NOBODY, steps).clients[i].query);
    assert ClientFits(w, Run(NOBODY, steps).table, Run(NOBODY, steps).used, Run(NOBODY, steps).clients[i]);
  }
}
