/** The cursor table: who may continue a search, once, and until when. */
module SearchCursors {
  import opened Wrappers
  import opened SearchWalk
  import opened Search
  import SearchHits
  import opened SearchService
  import opened Sequences

  datatype Reply = Denied | Page(matches: seq<Match>, cursor: Option<string>, examined: nat, unreadable: nat)

  predicate Truncated(v: View) {
    v.pending != [] || v.stack != [] || v.scan.Some?
  }

  // ----- the table on values -----

  /** What a cursor stands for. */
  datatype Kept = Kept(root: string, query: Query, expiresAt: int, view: View)

  /** Without what has expired. */
  function Pruned(t: map<string, Kept>, now: int): map<string, Kept> {
    map c | c in t && t[c].expiresAt > now :: t[c]
  }

  /** Whether a request gets a search: a live cursor of its own root and query, or room for a new one. */
  predicate MayOpen(t: map<string, Kept>, root: string, q: Query, cursor: Option<string>, now: int) {
    match cursor
    case None => |Pruned(t, now)| < CURSOR_LIMIT
    case Some(c) => c in Pruned(t, now) && t[c].root == root && t[c].query == q
  }

  /** The search a request goes on with, or would start. */
  function Ahead(t: map<string, Kept>, root: string, q: Query, cursor: Option<string>, now: int): Kept {
    match cursor
    case Some(c) => if c in t then t[c] else Kept(root, q, now, Start(q))
    case None => Kept(root, q, now + LIFETIME, Start(q))
  }

  /** The table afterwards: a redeemed cursor is gone. */
  function AfterOpen(t: map<string, Kept>, root: string, q: Query, cursor: Option<string>, now: int): map<string, Kept> {
    if cursor.Some? && MayOpen(t, root, q, cursor, now) then Pruned(t, now) - {cursor.value} else Pruned(t, now)
  }

  /** Apart from the new cursor, the table is as opening the request left it. */
  predicate OthersAsOpened(t: map<string, Kept>, u: map<string, Kept>, root: string, q: Query, cursor: Option<string>, now: int,
                           id: string)
  {
    u - {id} == AfterOpen(t, root, q, cursor, now)
  }

  predicate KeptUnder(t: map<string, Kept>, id: string, k: Kept) {
    id in t && t[id] == k
  }

  lemma {:induction false} OpensAsAsked(t: map<string, Kept>, root: string, q: Query, cursor: Option<string>, now: int)
    ensures MayOpen(t, root, q, cursor, now) ==>
              Ahead(t, root, q, cursor, now).root == root && Ahead(t, root, q, cursor, now).query == q
  {
  }

  /** A cursor that was just handed out. */
  lemma {:induction false} NextOpens(u: map<string, Kept>, root: string, q: Query, c: string, k: Kept, now: int)
    requires KeptUnder(u, c, k) && k.root == root && k.query == q
    ensures Ahead(u, root, q, Some(c), now) == k
    ensures MayOpen(u, root, q, Some(c), now) <==> k.expiresAt > now
  {
  }

  lemma {:induction false} WithoutNew(t: map<string, Kept>, id: string, k: Kept)
    ensures id !in t ==> t - {id} == t && t[id := k] - {id} == t
  {
  }

  /** Told from the table alone: a new search while fewer than 64 cursors live, or a cursor that lives and
      was handed out for this very root and query. */
  lemma {:induction false} MayOpenIff(t: map<string, Kept>, root: string, q: Query, cursor: Option<string>, now: int)
    ensures MayOpen(t, root, q, cursor, now) <==>
            if cursor.None? then |set c | c in t && now < t[c].expiresAt| < 64
            else cursor.value in t && now < t[cursor.value].expiresAt && t[cursor.value].root == root && t[cursor.value].query == q
  {
    assert Pruned(t, now).Keys == set c | c in t && now < t[c].expiresAt;
    assert |Pruned(t, now)| == |Pruned(t, now).Keys|;
  }

  predicate MayKeep(t: map<string, Kept>, k: Kept, now: int) {
    |t| < CURSOR_LIMIT && k.expiresAt > now
  }

  class Searches {
    var cursors: map<string, SearchState>

    /** Bounded, and no two cursors share a search. */
    ghost predicate Valid()
      reads this
    {
      && |cursors| <= CURSOR_LIMIT
      && forall a, b :: a in cursors && b in cursors && cursors[a] == cursors[b] ==> a == b
    }

    constructor ()
      ensures Valid() && cursors == map[]
    {
      cursors := map[];
    }

    ghost function Snap(s: SearchState): Kept
      reads s
    {
      Kept(s.root, s.query, s.expiresAt, s.View())
    }

    /** The table as values. */
    ghost function Table(): map<string, Kept>
      reads this, cursors.Values
    {
      map c | c in cursors :: Snap(cursors[c])
    }

    lemma {:induction false} TableSize()
      ensures Table().Keys == cursors.Keys && |Table()| == |cursors|
    {
      assert |Table()| == |Table().Keys| && |cursors| == |cursors.Keys|;
    }

    /** Every kept search has a bounded queue. */
    ghost predicate Tidy()
      reads this, cursors.Values
    {
      forall c :: c in cursors ==> |cursors[c].pending| <= PENDING_LIMIT
    }

    method Prune(now: int)
      requires Valid() && Tidy()
      modifies this
      ensures Valid() && Tidy()
      ensures Table() == Pruned(old(Table()), now)
      ensures forall c :: c in cursors ==> c in old(cursors) && cursors[c] == old(cursors)[c]
    {
      hide SearchState.View;
      ghost var before := cursors;
      cursors := map c | c in cursors && cursors[c].expiresAt > now :: cursors[c];
      FewerKeys(cursors, before);
    }

    /** Takes a cursor out of the table. */
    method Redeem(c: string) returns (state: SearchState)
      requires Valid() && Tidy() && c in cursors
      modifies this
      ensures Valid() && Tidy()
      ensures cursors == old(cursors) - {c} && Table() == old(Table()) - {c}
      ensures state == old(cursors)[c] && state !in cursors.Values && Snap(state) == old(Table())[c]
      ensures |state.pending| <= PENDING_LIMIT && |cursors| < CURSOR_LIMIT
    {
      state := cursors[c];
      ghost var kept := cursors;
      cursors := cursors - {c};
      assert cursors.Keys == kept.Keys - {c};
      assert |cursors| == |cursors.Keys| && |kept| == |kept.Keys|;
    }

    /** Drop expired cursors, then redeem the given cursor or start afresh. A redeemed search is
        reachable from no cursor, so no other request can continue or change it. */
    method Open(root: string, q: Query, cursor: Option<string>, now: int) returns (state: Option<SearchState>)
      requires Valid() && Tidy()
      modifies this
      ensures Valid() && Tidy()
      ensures state.Some? <==> MayOpen(old(Table()), root, q, cursor, now)
      ensures Table() == AfterOpen(old(Table()), root, q, cursor, now)
      ensures state.Some? ==> Snap(state.value) == Ahead(old(Table()), root, q, cursor, now)
      ensures state.Some? ==> state.value !in cursors.Values && |cursors| < CURSOR_LIMIT && |state.value.pending| <= PENDING_LIMIT
      ensures state.Some? ==>
                if cursor.None? then fresh(state.value)
                else cursor.value in old(cursors) && state.value == old(cursors)[cursor.value]
      ensures forall c :: c in cursors ==> c in old(cursors) && cursors[c] == old(cursors)[c]
    {
      hide Table;
      Prune(now);
      TableSize();
      state := None;
      match cursor
      case None =>
        if |cursors| < CURSOR_LIMIT {
          var begun := new SearchState(root, q, now);
          state := Some(begun);
        }
      case Some(c) =>
        if c in cursors {
          TableAt(c);
          if cursors[c].root == root && cursors[c].query == q {
            var redeemed := Redeem(c);
            state := Some(redeemed);
          }
        }
    }

    lemma {:induction false} TableAt(c: string)
      requires c in cursors
      ensures c in Table() && Table()[c] == Snap(cursors[c])
    {
    }

    /** Keep an unfinished search under a new cursor; its lifetime runs from the first page. */
    method Keep(state: SearchState, id: string, now: int) returns (ok: bool)
      requires Valid() && id !in cursors && state !in cursors.Values
      modifies this
      ensures Valid()
      ensures ok <==> MayKeep(old(Table()), Snap(state), now)
      ensures ok <==> |old(cursors)| < 64 && now < state.expiresAt
      ensures Table() == if ok then old(Table())[id := Snap(state)] else old(Table())
      ensures cursors == if ok then old(cursors)[id := state] else old(cursors)
    {
      TableSize();
      if |cursors| >= CURSOR_LIMIT || state.expiresAt <= now {
        return false;
      }
      ok := true;
      forall a | a in cursors ensures cursors[a] != state {
        assert cursors[a] in cursors.Values;
      }
      cursors := cursors[id := state];
    }

    /** Produce one page of an opened search and keep the rest under `newId`. */
    method Continue(w: World, s: SearchState, later: int, newId: string)
      returns (reply: Reply, ghost after: View, ghost raw: seq<Match>)
      requires Valid() && Tidy() && newId !in cursors && s !in cursors.Values
      requires s.query.maxResults > 0 && |s.pending| <= PENDING_LIMIT
      modifies this, s
      ensures Valid() && Tidy()
      ensures Snap(s) == old(Snap(s)).(view := after)
      ensures cursors == if reply.Page? && reply.cursor.Some? then old(cursors)[newId := s] else old(cursors)
      ensures Table() == if reply.Page? && reply.cursor.Some? then old(Table())[newId := Snap(s)] else old(Table())
      ensures reply.Page? ==> Answers(w, s.query, old(s.View()), reply, raw, after)
      ensures reply.Page? && reply.cursor.Some? ==> reply.cursor.value == newId && MayKeep(old(Table()), Snap(s), later)
      ensures reply.Denied? ==> Total(w, s.query, old(s.View())).failures > 0
                                || (!Finished(after) && !MayKeep(old(Table()), Snap(s), later))
    {
      hide Table, PageOf, Shows, Total, Chars;
      var ok, matches, work;
      reply := Denied;
      ok, matches, work, raw := s.Page(w);
      after := s.View();
      if !ok { return; }
      if Truncated(s.View()) {
        ok := Keep(s, newId, later);
        if !ok { return; }
        reply := Page(matches, Some(newId), work, s.unreadable);
      } else {
        reply := Page(matches, None, work, s.unreadable);
      }
    }

    /** One request: redeem or start, produce one page, hand out a cursor for the rest. `newId` is
        the fresh random id, `now` and `later` are the clock before and after the page. Other searches
        are kept as they are until they expire. `admitted` and `finished` say whether the journal takes the
        observation at its two ends; a redeemed cursor is spent even if it does not. */
    method Request(w: World, root: string, q: Query, cursor: Option<string>, now: int, later: int, newId: string,
                   admitted: bool, finished: bool)
      returns (reply: Reply, ghost before: Kept, ghost after: View, ghost raw: seq<Match>)
      requires Valid() && Tidy() && q.maxResults > 0 && newId !in cursors
      modifies this, cursors.Values
      ensures Valid() && Tidy()
      ensures Requested(w, old(Table()), Table(), root, q, cursor, now, later, newId, admitted && finished, reply, before, after, raw)
      ensures forall c :: c in cursors ==>
                (c in old(cursors) && cursors[c] == old(cursors)[c]) || (c == newId && (cursor.None? ==> fresh(cursors[c])))
      ensures newId in cursors && cursor.Some? ==> cursor.value in old(cursors) && cursors[newId] == old(cursors)[cursor.value]
    {
      hide Answers, Total, Finished, PageOf, Shows, Start, Table, AfterOpen, MayOpen, Ahead, Requested;
      reply, before, after, raw := Denied, Kept(root, q, now, Start(q)), Start(q), [];
      ghost var t := Table();
      var state := Open(root, q, cursor, now);
      ghost var between := Table();
      TableSize();
      if state.None? {
        RefusedRequest(w, t, between, root, q, cursor, now, later, newId, admitted && finished, before, after, raw);
        return;
      }
      before := Snap(state.value);
      OpensAsAsked(t, root, q, cursor, now);
      if cursor.Some? {
        assert state.value in old(cursors).Values;
      }
      if !admitted {
        RefusedRequest(w, t, between, root, q, cursor, now, later, newId, admitted && finished, before, after, raw);
        return;
      }
      reply, after, raw := Continue(w, state.value, later, newId);
      AnsweredRequest(w, t, between, Table(), root, q, cursor, now, later, newId, finished, reply, before, after, raw);
      if !finished { reply := Denied; }
    }

    /** Follows cursors from request `k` on until none comes back; `clock` gives the times before and
        after each page, `ids` the random cursors, `journal` whether the journal takes what it is told. */
    method Follow(w: World, root: string, q: Query, cursor: Option<string>, clock: nat -> int, ids: nat -> string,
                  journal: nat -> bool, k: nat)
      returns (done: bool, pages: seq<seq<Match>>, unreadable: nat, ghost raws: seq<seq<Match>>)
      requires Valid() && Tidy() && q.maxResults > 0
      requires forall j :: j >= k ==> ids(j) !in cursors
      requires forall i, j :: i != j ==> ids(i) != ids(j)
      modifies this, cursors.Values
      ensures Valid() && Tidy()
      ensures Followed(w, old(Table()), Table(), root, q, cursor, clock, journal, k, done, pages, unreadable, raws)
      decreases |Rest(w, q, Ahead(Table(), root, q, cursor, clock(2 * k)).view)|
    {
      hide *;
      done, pages, unreadable, raws := false, [], 0, [];
      ghost var t := Table();
      TableSize();
      var reply, before, after, raw :=
        Request(w, root, q, cursor, clock(2 * k), clock(2 * k + 1), ids(k), journal(2 * k), journal(2 * k + 1));
      ghost var u := Table();
      FollowedHere(w, t, u, root, q, cursor, clock, journal, k, ids(k), reply, before, after, raw);
      if reply.Denied? { return; }
      if reply.cursor.None? {
        return true, [reply.matches], reply.unreadable, [raw];
      }
      TableSize();
      var rest;
      ghost var more;
      done, rest, unreadable, more := Follow(w, root, q, reply.cursor, clock, ids, journal, k + 1);
      FollowedMore(w, t, u, Table(), root, q, cursor, clock, journal, k, ids(k), reply, before, after, raw, done, rest, unreadable, more);
      pages, raws := [reply.matches] + rest, [raw] + more;
    }

    /** A whole search, cursors followed until none comes back. If it finishes, its pages are the
        recursive walk: the same matches in the same order. It does finish if that walk meets no error,
        the table has room at the beginning, the journal takes every observation, and all of it happens
        within the lifetime of a search. */
    method SearchAll(w: World, root: string, q: Query, clock: nat -> int, ids: nat -> string, journal: nat -> bool)
      returns (done: bool, pages: seq<seq<Match>>, unreadable: nat, ghost raws: seq<seq<Match>>)
      requires Valid() && Tidy() && q.maxResults > 0
      requires forall j :: ids(j) !in cursors
      requires forall i, j :: i != j ==> ids(i) != ids(j)
      modifies this, cursors.Values
      ensures Valid() && Tidy()
      ensures AllShown(q, raws, pages)
      ensures done ==> WalkFolder(w, q, q.path, 0) == Tally(Flatten(raws), unreadable, 0)
      ensures done ==> SearchHits.Finds(w, q, Tally(Flatten(raws), unreadable, 0))
      ensures WalkFolder(w, q, q.path, 0).failures == 0 && |Pruned(old(Table()), clock(0))| < CURSOR_LIMIT
              && Lasting(clock, journal, 0, clock(0) + LIFETIME)
              ==> done
      ensures |pages| <= 1 + |FrameItems(w, q, q.path, 0, 0)|
      ensures Keeps(old(Table()), Table(), None, clock)
    {
      hide Total, Rest, Shows, Start, Tidy, WalkFolder, FrameItems, Table, Keeps, Lasting, AllShown, Pruned, SearchHits.Finds;
      SearchHits.WalkFinds(w, q);
      StartTotal(w, q);
      StartRest(w, q);
      done, pages, unreadable, raws := Follow(w, root, q, None, clock, ids, journal, 0);
    }
  }

  /** What one request comes to: the page of the search it was opened for, or a denial with its cause;
      and the table keeps every other live search. */
  ghost predicate Requested(w: World, t: map<string, Kept>, u: map<string, Kept>, root: string, q: Query, cursor: Option<string>,
                            now: int, later: int, id: string, recorded: bool, reply: Reply, before: Kept, after: View, raw: seq<Match>)
  {
    && (reply.Page? ==> MayOpen(t, root, q, cursor, now) && recorded && Answers(w, q, before.view, reply, raw, after))
    && (MayOpen(t, root, q, cursor, now) ==> before == Ahead(t, root, q, cursor, now))
    && (reply.Denied? ==>
          || !MayOpen(t, root, q, cursor, now) || !recorded
          || Total(w, q, before.view).failures > 0 || later >= before.expiresAt)
    && (reply.Page? && reply.cursor.Some? ==> reply.cursor.value == id && KeptUnder(u, id, before.(view := after)))
    && (reply.Page? && reply.cursor.Some? ==> MayKeep(AfterOpen(t, root, q, cursor, now), before.(view := after), later))
    && (reply.Page? && reply.cursor.None? ==> u == AfterOpen(t, root, q, cursor, now))
    && OthersAsOpened(t, u, root, q, cursor, now, id)
  }

  /** A request that gets no search, or that the journal does not take. */
  lemma {:induction false} RefusedRequest(w: World, t: map<string, Kept>, u: map<string, Kept>, root: string, q: Query,
                                          cursor: Option<string>, now: int, later: int, id: string, recorded: bool,
                                          before: Kept, after: View, raw: seq<Match>)
    requires u == AfterOpen(t, root, q, cursor, now) && id !in u
    requires MayOpen(t, root, q, cursor, now) ==> !recorded && before == Ahead(t, root, q, cursor, now)
    ensures Requested(w, t, u, root, q, cursor, now, later, id, recorded, Denied, before, after, raw)
  {
    hide AfterOpen, MayOpen, Ahead, Total;
    WithoutNew(u, id, before);
  }

  /** A request whose search was continued, from what was opened to what is kept of it. */
  lemma {:induction false} AnsweredRequest(w: World, t: map<string, Kept>, between: map<string, Kept>, u: map<string, Kept>,
                                           root: string, q: Query, cursor: Option<string>, now: int, later: int, id: string,
                                           finished: bool, reply: Reply, before: Kept, after: View, raw: seq<Match>)
    requires MayOpen(t, root, q, cursor, now) && before == Ahead(t, root, q, cursor, now)
    requires between == AfterOpen(t, root, q, cursor, now) && id !in between && |between| < CURSOR_LIMIT
    requires u == if reply.Page? && reply.cursor.Some? then between[id := before.(view := after)] else between
    requires reply.Page? ==> Answers(w, q, before.view, reply, raw, after)
    requires reply.Page? && reply.cursor.Some? ==> reply.cursor.value == id && MayKeep(between, before.(view := after), later)
    requires reply.Denied? ==> Total(w, q, before.view).failures > 0 || !MayKeep(between, before.(view := after), later)
    ensures Requested(w, t, u, root, q, cursor, now, later, id, finished, if finished then reply else Denied, before, after, raw)
  {
    hide AfterOpen, MayOpen, Ahead, Total, Answers;
    WithoutNew(between, id, before.(view := after));
  }

  /** What following cursors comes to: the pages are what the search still owed; it finishes if that
      meets no error and lasts long enough; other cursors are kept. */
  ghost predicate Followed(w: World, t: map<string, Kept>, u: map<string, Kept>, root: string, q: Query, cursor: Option<string>,
                           clock: nat -> int, journal: nat -> bool, k: nat,
                           done: bool, pages: seq<seq<Match>>, unreadable: nat, raws: seq<seq<Match>>)
  {
    var s := Ahead(t, root, q, cursor, clock(2 * k));
    && AllShown(q, raws, pages)
    && (done ==> Total(w, q, s.view) == Tally(Flatten(raws), unreadable, 0))
    && (MayOpen(t, root, q, cursor, clock(2 * k)) && Total(w, q, s.view).failures == 0 && Lasting(clock, journal, 2 * k, s.expiresAt)
        ==> done)
    && |pages| <= 1 + |Rest(w, q, s.view)|
    && Keeps(t, u, cursor, clock)
  }

  /** A request that ends the chain. */
  lemma {:induction false} FollowedHere(w: World, t: map<string, Kept>, u: map<string, Kept>, root: string, q: Query,
                                        cursor: Option<string>, clock: nat -> int, journal: nat -> bool, k: nat, id: string,
                                        reply: Reply, before: Kept, after: View, raw: seq<Match>)
    requires id !in t
    requires Requested(w, t, u, root, q, cursor, clock(2 * k), clock(2 * k + 1), id, journal(2 * k) && journal(2 * k + 1),
                       reply, before, after, raw)
    ensures reply.Denied? ==> Followed(w, t, u, root, q, cursor, clock, journal, k, false, [], 0, [])
    ensures reply.Page? && reply.cursor.None? ==>
              Followed(w, t, u, root, q, cursor, clock, journal, k, true, [reply.matches], reply.unreadable, [raw])
    ensures reply.Page? && reply.cursor.Some? ==>
              && reply.cursor.value == id && KeptUnder(u, id, before.(view := after))
              && Ahead(u, root, q, Some(id), clock(2 * k + 2)).view == after
              && |Rest(w, q, after)| < |Rest(w, q, Ahead(t, root, q, cursor, clock(2 * k)).view)|
  {
    hide Total, Rest, Finished, PageOf, Shows, AfterOpen, MayOpen, Ahead, Keeps, Lasting, AllShown, Answers, OthersAsOpened, KeptUnder;
    NothingShown(q);
    OpensAsAsked(t, root, q, cursor, clock(2 * k));
    LastsOn(clock, journal, 2 * k, Ahead(t, root, q, cursor, clock(2 * k)).expiresAt);
    RequestKeeps(t, u, root, q, cursor, clock, 2 * k, id);
    if reply.Page? {
      AnswerParts(w, q, before.view, reply, raw, after);
      PageShown(q, raw, reply.matches, [], []);
      LastPage(w, q, before.view, raw, after);
      if reply.cursor.Some? { NextOpens(u, root, q, id, before.(view := after), clock(2 * k + 2)); }
    }
  }

  lemma {:induction false} FollowedMore(w: World, t: map<string, Kept>, u: map<string, Kept>, v: map<string, Kept>, root: string, q: Query,
                                        cursor: Option<string>, clock: nat -> int, journal: nat -> bool, k: nat, id: string,
                                        reply: Reply, before: Kept, after: View, raw: seq<Match>,
                                        done: bool, rest: seq<seq<Match>>, unreadable: nat, more: seq<seq<Match>>)
    requires id !in t && reply.Page? && reply.cursor == Some(id)
    requires Requested(w, t, u, root, q, cursor, clock(2 * k), clock(2 * k + 1), id, journal(2 * k) && journal(2 * k + 1),
                       reply, before, after, raw)
    requires Followed(w, u, v, root, q, Some(id), clock, journal, k + 1, done, rest, unreadable, more)
    ensures Followed(w, t, v, root, q, cursor, clock, journal, k, done, [reply.matches] + rest, unreadable, [raw] + more)
  {
    hide Total, Rest, Finished, PageOf, Shows, AfterOpen, MayOpen, Ahead, Keeps, Lasting, AllShown, Answers, OthersAsOpened, KeptUnder;
    OpensAsAsked(t, root, q, cursor, clock(2 * k));
    LastsOn(clock, journal, 2 * k, Ahead(t, root, q, cursor, clock(2 * k)).expiresAt);
    RequestKeeps(t, u, root, q, cursor, clock, 2 * k, id);
    AnswerParts(w, q, before.view, reply, raw, after);
    PageShown(q, raw, reply.matches, more, rest);
    LastPage(w, q, before.view, raw, after);
    NextOpens(u, root, q, id, before.(view := after), clock(2 * k + 2));
    KeepsOn(t, u, v, cursor, id, clock);
    NextPage(w, q, before.view, raw, after, more, unreadable);
    assert 2 * (k + 1) == 2 * k + 2;
  }

  /** Every page shows what left the search, within the page's limit. */
  ghost predicate AllShown(q: Query, raws: seq<seq<Match>>, pages: seq<seq<Match>>) {
    |raws| == |pages| && forall i :: 0 <= i < |pages| ==> Shows(raws[i], pages[i]) && |pages[i]| <= q.maxResults
  }

  lemma {:induction false} PageShown(q: Query, raw: seq<Match>, page: seq<Match>, raws: seq<seq<Match>>, pages: seq<seq<Match>>)
    requires Shows(raw, page) && |page| <= q.maxResults
    ensures AllShown(q, [], []) && AllShown(q, [raw], [page])
    ensures AllShown(q, raws, pages) ==> AllShown(q, [raw] + raws, [page] + pages)
  {
    hide Shows;
  }

  lemma {:induction false} NothingShown(q: Query)
    ensures AllShown(q, [], [])
  {
  }

  /** What Follow needs of a page. */
  lemma {:induction false} AnswerParts(w: World, q: Query, before: View, reply: Reply, raw: seq<Match>, after: View)
    requires reply.Page? && Answers(w, q, before, reply, raw, after)
    ensures PageOf(w, q, before, raw, after) && Shows(raw, reply.matches) && |reply.matches| <= q.maxResults
    ensures reply.cursor.None? ==> Finished(after) && reply.unreadable == after.unreadable
    ensures reply.cursor.Some? ==> !Finished(after)
  {
  }

  /** From now on the journal takes everything, before the search expires. */
  ghost predicate Lasting(clock: nat -> int, journal: nat -> bool, from: nat, expiry: int) {
    forall j :: j >= from ==> clock(j) < expiry && journal(j)
  }

  lemma {:induction false} LastsOn(clock: nat -> int, journal: nat -> bool, from: nat, expiry: int)
    ensures Lasting(clock, journal, from, expiry) ==>
              && journal(from) && journal(from + 1) && clock(from + 1) < expiry && clock(from + 2) < expiry
              && Lasting(clock, journal, from + 2, expiry)
  {
  }

  /** Every cursor but the given one is kept, as long as it lives. */
  ghost predicate Keeps(t: map<string, Kept>, u: map<string, Kept>, but: Option<string>, clock: nat -> int) {
    forall c :: c in t && but != Some(c) && (forall j :: t[c].expiresAt > clock(j)) ==> c in u && u[c] == t[c]
  }

  lemma {:induction false} RequestKeeps(t: map<string, Kept>, u: map<string, Kept>, root: string, q: Query, cursor: Option<string>,
                                        clock: nat -> int, k: nat, id: string)
    requires OthersAsOpened(t, u, root, q, cursor, clock(k), id) && id !in t
    ensures Keeps(t, u, cursor, clock)
  {
    forall c | c in t && cursor != Some(c) && (forall j :: t[c].expiresAt > clock(j)) ensures c in u && u[c] == t[c] {
      assert t[c].expiresAt > clock(k);
      assert c in u - {id};
    }
  }

  lemma {:induction false} KeepsOn(t: map<string, Kept>, u: map<string, Kept>, v: map<string, Kept>, but: Option<string>, id: string,
                                   clock: nat -> int)
    requires Keeps(t, u, but, clock) && Keeps(u, v, Some(id), clock) && id !in t
    ensures Keeps(t, v, but, clock)
  {
  }

  /** The reply is one page of the search, and it carries a cursor exactly when something is left. */
  ghost predicate Answers(w: World, q: Query, before: View, reply: Reply, raw: seq<Match>, after: View)
    requires reply.Page?
  {
    && PageOf(w, q, before, raw, after) && Shows(raw, reply.matches)
    && |reply.matches| <= q.maxResults && Chars(reply.matches) <= TEXT_LIMIT && reply.examined <= WORK_LIMIT
    && reply.unreadable == after.unreadable
    && (reply.cursor.None? <==> Finished(after))
  }

  lemma {:induction false} LastPage(w: World, q: Query, before: View, raw: seq<Match>, after: View)
    requires PageOf(w, q, before, raw, after)
    ensures Finished(after) ==> Total(w, q, before) == Tally(Flatten([raw]), after.unreadable, 0)
    ensures !Finished(after) ==> |Rest(w, q, after)| < |Rest(w, q, before)|
  {
    if Finished(after) {
      TotalOf(w, q, after);
      assert [raw][1..] == [] && raw + [] == raw;
    }
  }

  lemma {:induction false} NextPage(w: World, q: Query, before: View, raw: seq<Match>, after: View,
                                    more: seq<seq<Match>>, unreadable: nat)
    requires PageOf(w, q, before, raw, after)
    ensures Total(w, q, after) == Tally(Flatten(more), unreadable, 0) ==>
              Total(w, q, before) == Tally(Flatten([raw] + more), unreadable, 0)
    ensures Total(w, q, before).failures == Total(w, q, after).failures
  {
    hide Total, Rest;
    assert ([raw] + more)[1..] == more;
  }

  lemma {:induction false} StartRest(w: World, q: Query)
    ensures |Rest(w, q, Start(q))| == |FrameItems(w, q, q.path, 0, 0)|
  {
    assert Start(q).stack[..0] == [];
    assert StackItems(w, q, Start(q).stack) == FrameItems(w, q, q.path, 0, 0) + [];
  }
}
