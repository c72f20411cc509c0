/** Owner consent kept in memory: a request is suspended while the owner is asked, and comes back to a
    table that other requests and consumptions have changed in the meantime. Keyed digests and random
    capabilities are ideal: a digest stands for what was digested. */
module Consent {
  import opened Formats
  import opened Sequences
  import opened Wrappers

  const GRANT_LIMIT := 256
  const MAX_SAFE := 0x1F_FFFF_FFFF_FFFF
  const TTL_LIMIT := 120_000

  datatype Action = ProtectedReveal | CredentialWrite | Destructive | BinaryExport
  datatype TargetState = Existing | Absent

  datatype Operation = Operation(
    taskId: string, action: Action, rootId: string, rootIdentity: string, path: string, fileIdentity: Option<string>,
    targetState: TargetState, preimageDigest: Option<string>, postimageDigest: Option<string>,
    destination: Option<string>, destinationRootIdentity: Option<string>)

  type Capability = string

  datatype Grant = Grant(binding: Operation, issuedAt: int, expiresAt: int)

  datatype Challenge = Challenge(id: string, binding: Operation, issuedAt: int, expiresAt: int)
  datatype Presence = Verified(challengeId: string, binding: Operation, ownerId: string, verifiedAt: int) | NotVerified

  // ----- what an operation must be -----

  predicate Word(c: char) {
    'a' <= c <= 'z' || 'A' <= c <= 'Z' || '0' <= c <= '9' || c == '_' || c == '-'
  }

  predicate Wellformed(o: Operation) {
    && 1 <= |o.taskId| <= 128 && (forall k :: 0 <= k < |o.taskId| ==> Word(o.taskId[k]))
    && IsRootId(o.rootId) && IsIdentity(o.rootIdentity) && IsRelativePath(o.path)
    && (o.fileIdentity.Some? ==> IsIdentity(o.fileIdentity.value))
    && (o.preimageDigest.Some? ==> IsDigest(o.preimageDigest.value))
    && (o.postimageDigest.Some? ==> IsDigest(o.postimageDigest.value))
    && (o.destination.Some? ==> IsRelativePath(o.destination.value))
    && (o.destinationRootIdentity.Some? ==> IsIdentity(o.destinationRootIdentity.value))
    && (if o.targetState.Existing? then o.fileIdentity.Some? && o.preimageDigest.Some?
        else o.fileIdentity.None? && o.preimageDigest.None?)
    && (o.destination.None? <==> o.destinationRootIdentity.None?)
    && (if o.action.CredentialWrite? then o.postimageDigest.Some?
        else o.targetState.Existing? && o.postimageDigest.None?
             && (o.action.ProtectedReveal? || o.action.BinaryExport? ==> o.destination.None?))
  }

  predicate Owner(s: string) {
    1 <= |s| <= 128 && forall k :: 0 <= k < |s| ==> Word(s[k]) || s[k] == '.' || s[k] == ':'
  }

  predicate Safe(n: int) { -MAX_SAFE <= n <= MAX_SAFE }

  // ----- the table -----

  type Grants = map<Capability, Grant>

  function Pruned(g: Grants, now: int): Grants {
    map c | c in g && g[c].expiresAt > now :: g[c]
  }

  /** Whether the verifier's answer turns a challenge into a grant. */
  predicate Confirms(ch: Challenge, p: Presence, now: int) {
    && p.Verified? && p.challengeId == ch.id && p.binding == ch.binding && Owner(p.ownerId)
    && Safe(p.verifiedAt) && ch.issuedAt <= p.verifiedAt <= now && Safe(now) && ch.issuedAt <= now < ch.expiresAt
  }

  predicate Spendable(g: Grants, c: Capability, o: Operation, now: int) {
    && c in g && Wellformed(o) && IsDigest(c)
    && g[c].binding == o && Safe(now) && g[c].issuedAt <= now < g[c].expiresAt
  }

  /** The events a table goes through; requests are split where they wait for the owner. */
  datatype Event =
    | Begin(operation: Operation, id: string, now: int)
    | Finish(challenge: Challenge, presence: Presence, now: int, capability: Capability)
    | Consume(capability: Capability, operation: Operation, now: int)

  /** The table, the challenges still waiting, everything ever issued, and everything spent. */
  datatype World = World(grants: Grants, waiting: set<Challenge>, issued: Grants, spent: seq<Use>)
  datatype Use = Use(capability: Capability, operation: Operation, now: int)

  const START := World(map[], {}, map[], [])

  predicate Possible(w: World, e: Event) {
    match e
    case Finish(ch, _, _, c) => ch in w.waiting && c !in w.issued && IsDigest(c)
    case _ => true
  }

  function Next(w: World, ttl: int, e: Event): World {
    match e
    case Begin(o, id, now) =>
      if !Wellformed(o) || !Safe(now) then w
      else
        var g := Pruned(w.grants, now);
        if |g| >= GRANT_LIMIT then w.(grants := g)
        else w.(grants := g, waiting := w.waiting + {Challenge(id, o, now, now + ttl)})
    case Finish(ch, p, now, c) =>
      if !Confirms(ch, p, now) || |w.grants| >= GRANT_LIMIT then w.(waiting := w.waiting - {ch})
      else
        var g := Grant(ch.binding, ch.issuedAt, ch.expiresAt);
        w.(grants := w.grants[c := g], waiting := w.waiting - {ch}, issued := w.issued[c := g])
    case Consume(c, o, now) =>
      if !Wellformed(o) || !IsDigest(c) then w
      else
        var g := Pruned(w.grants, now);
        if !Spendable(g, c, o, now) then w.(grants := g)
        else w.(grants := g - {c}, spent := w.spent + [Use(c, o, now)])
  }

  ghost predicate AllPossible(w: World, ttl: int, events: seq<Event>)
    decreases |events|
  {
    events == [] || (Possible(w, events[0]) && AllPossible(Next(w, ttl, events[0]), ttl, events[1..]))
  }

  function Run(w: World, ttl: int, events: seq<Event>): World
    decreases |events|
  {
    if events == [] then w else Run(Next(w, ttl, events[0]), ttl, events[1..])
  }

  // ----- the invariant -----

  /** A use is of something issued, for the very operation, inside its window. */
  predicate Proper(w: World, u: Use) {
    && u.capability in w.issued && u.capability !in w.grants
    && w.issued[u.capability].binding == u.operation
    && w.issued[u.capability].issuedAt <= u.now < w.issued[u.capability].expiresAt
  }

  predicate Inv(w: World) {
    && |w.grants| <= GRANT_LIMIT
    && (forall c :: c in w.grants ==> c in w.issued && w.issued[c] == w.grants[c])
    && (forall k :: 0 <= k < |w.spent| ==> Proper(w, w.spent[k]))
    && (forall i, j :: 0 <= i < j < |w.spent| ==> w.spent[i].capability != w.spent[j].capability)
  }

  lemma {:induction false} PrunedKeeps(g: Grants, now: int)
    ensures Pruned(g, now).Keys <= g.Keys && |Pruned(g, now)| <= |g|
    ensures forall c :: c in Pruned(g, now) ==> Pruned(g, now)[c] == g[c]
  {
    FewerKeys(Pruned(g, now), g);
  }

  /** Taking grants away keeps every recorded use proper. */
  lemma {:induction false} FewerGrants(w: World, g: Grants)
    requires Inv(w) && g.Keys <= w.grants.Keys && forall c :: c in g ==> g[c] == w.grants[c]
    ensures Inv(w.(grants := g))
  {
    FewerKeys(g, w.grants);
    forall k | 0 <= k < |w.spent| ensures Proper(w.(grants := g), w.spent[k]) {
      assert Proper(w, w.spent[k]);
    }
  }

  lemma {:induction false} OneMoreUse(w: World, u: Use)
    requires Inv(w) && Proper(w, u) && forall k :: 0 <= k < |w.spent| ==> w.spent[k].capability != u.capability
    ensures Inv(w.(spent := w.spent + [u]))
  {
    var v := w.(spent := w.spent + [u]);
    forall k | 0 <= k < |v.spent| ensures Proper(v, v.spent[k]) {
      if k < |w.spent| { assert Proper(w, w.spent[k]); }
    }
  }

  lemma {:induction false} ConsumeKeepsInv(w: World, ttl: int, e: Event)
    requires Inv(w) && e.Consume?
    ensures Inv(Next(w, ttl, e))
  {
    var g := Pruned(w.grants, e.now);
    PrunedKeeps(w.grants, e.now);
    FewerGrants(w, g);
    if Wellformed(e.operation) && IsDigest(e.capability) && Spendable(g, e.capability, e.operation, e.now) {
      var v := w.(grants := g - {e.capability});
      FewerGrants(w, v.grants);
      forall k | 0 <= k < |w.spent| ensures w.spent[k].capability != e.capability {
        assert Proper(w, w.spent[k]);
      }
      OneMoreUse(v, Use(e.capability, e.operation, e.now));
    }
  }

  lemma {:induction false} OneMoreKey<K, V>(m: map<K, V>, k: K, v: V)
    requires k !in m
    ensures |m[k := v]| == |m| + 1
  {
    assert m[k := v].Keys == m.Keys + {k};
    assert |m[k := v]| == |m[k := v].Keys| && |m| == |m.Keys|;
  }

  lemma {:induction false} OneMoreGrant(w: World, c: Capability, g: Grant)
    requires Inv(w) && c !in w.issued && |w.grants| < GRANT_LIMIT
    ensures Inv(w.(grants := w.grants[c := g], issued := w.issued[c := g]))
  {
    var v := w.(grants := w.grants[c := g], issued := w.issued[c := g]);
    OneMoreKey(w.grants, c, g);
    forall k | 0 <= k < |w.spent| ensures Proper(v, v.spent[k]) {
      assert Proper(w, w.spent[k]);
    }
  }

  lemma {:induction false} UsesAlike(w: World, v: World)
    requires Inv(w) && v == w.(waiting := v.waiting)
    ensures Inv(v)
  {
    forall k | 0 <= k < |v.spent| ensures Proper(v, v.spent[k]) {
      assert Proper(w, w.spent[k]);
    }
  }

  lemma {:induction false} FinishKeepsInv(w: World, ttl: int, e: Event)
    requires Inv(w) && e.Finish? && Possible(w, e)
    ensures Inv(Next(w, ttl, e))
  {
    hide Confirms, IsDigest;
    var v := w.(waiting := w.waiting - {e.challenge});
    assert Inv(v) by { UsesAlike(w, v); }
    if Confirms(e.challenge, e.presence, e.now) && |w.grants| < GRANT_LIMIT {
      OneMoreGrant(v, e.capability, Grant(e.challenge.binding, e.challenge.issuedAt, e.challenge.expiresAt));
    }
  }

  lemma {:induction false} StepKeepsInv(w: World, ttl: int, e: Event)
    requires Inv(w) && Possible(w, e)
    ensures Inv(Next(w, ttl, e))
  {
    match e
    case Begin(_, _, now) => PrunedKeeps(w.grants, now);
    case Finish(_, _, _, _) => FinishKeepsInv(w, ttl, e);
    case Consume(_, _, _) => ConsumeKeepsInv(w, ttl, e);
  }

  lemma {:induction false} RunsKeepInv(w: World, ttl: int, events: seq<Event>)
    requires Inv(w) && AllPossible(w, ttl, events)
    ensures Inv(Run(w, ttl, events))
    decreases |events|
  {
    if events != [] {
      StepKeepsInv(w, ttl, events[0]);
      RunsKeepInv(Next(w, ttl, events[0]), ttl, events[1..]);
    }
  }

  /** However many requests wait while others complete or are spent, at most 256 grants are live. */
  lemma {:induction false} NeverTooMany(ttl: int, events: seq<Event>)
    requires AllPossible(START, ttl, events)
    ensures |Run(START, ttl, events).grants| <= GRANT_LIMIT
  {
    RunsKeepInv(START, ttl, events);
  }

  /** Each capability is spent at most once, for exactly the operation it was issued for, between its
      issue and its expiry. */
  lemma {:induction false} SpentOnceAndProperly(ttl: int, events: seq<Event>, i: nat)
    requires AllPossible(START, ttl, events) && i < |Run(START, ttl, events).spent|
    ensures var w := Run(START, ttl, events);
            var u := w.spent[i];
            && u.capability in w.issued
            && w.issued[u.capability].binding == u.operation
            && w.issued[u.capability].issuedAt <= u.now < w.issued[u.capability].expiresAt
            && u.capability !in w.grants
            && forall j :: 0 <= j < |w.spent| && j != i ==> w.spent[j].capability != u.capability
  {
    RunsKeepInv(START, ttl, events);
    assert Proper(Run(START, ttl, events), Run(START, ttl, events).spent[i]);
  }

  // ----- what lets a grant be issued -----

  lemma {:induction false} OneMoreEvent(w: World, ttl: int, events: seq<Event>, e: Event)
    ensures Run(w, ttl, events + [e]) == Next(Run(w, ttl, events), ttl, e)
    ensures AllPossible(w, ttl, events + [e]) <==> AllPossible(w, ttl, events) && Possible(Run(w, ttl, events), e)
    decreases |events|
  {
    hide Next, Possible;
    var all := events + [e];
    if events == [] {
      assert all[1..] == [];
    } else {
      assert all[1..] == events[1..] + [e];
      OneMoreEvent(Next(w, ttl, events[0]), ttl, events[1..], e);
    }
  }

  /** A challenge waits exactly if it did, or if it is of a well-formed operation that found room. */
  lemma {:induction false} BeginsWaiting(w: World, ttl: int, o: Operation, id: string, now: int, ch: Challenge)
    ensures ch in Next(w, ttl, Event.Begin(o, id, now)).waiting <==>
            || ch in w.waiting
            || (ch == Challenge(id, o, now, now + ttl) && Wellformed(o) && -0x1F_FFFF_FFFF_FFFF <= now <= 0x1F_FFFF_FFFF_FFFF
                && |map c | c in w.grants && w.grants[c].expiresAt > now :: w.grants[c]| < 256)
  {
    hide Wellformed;
    var kept := map c | c in w.grants && w.grants[c].expiresAt > now :: w.grants[c];
    assert Pruned(w.grants, now) == kept;
  }

  /** A capability is issued exactly by a presence that the verifier calls verified, of this challenge
      and of this operation, by a valid owner, while the challenge is open and the table has room. */
  lemma {:induction false} FinishIssuesIff(w: World, ttl: int, ch: Challenge, p: Presence, now: int, c: Capability)
    requires c !in w.issued
    ensures c in Next(w, ttl, Event.Finish(ch, p, now, c)).issued <==>
            && p.Verified? && p.challengeId == ch.id && p.binding == ch.binding
            && 1 <= |p.ownerId| <= 128
            && (forall k :: 0 <= k < |p.ownerId| ==>
                  var x := p.ownerId[k];
                  'a' <= x <= 'z' || 'A' <= x <= 'Z' || '0' <= x <= '9' || x == '_' || x == '-' || x == '.' || x == ':')
            && ch.issuedAt <= p.verifiedAt <= now < ch.expiresAt
            && -0x1F_FFFF_FFFF_FFFF <= p.verifiedAt && now <= 0x1F_FFFF_FFFF_FFFF
            && |w.grants| < 256
  {
  }

  lemma {:induction false} OnlyBeginWaits(w: World, ttl: int, e: Event, ch: Challenge)
    requires ch in Next(w, ttl, e).waiting && ch !in w.waiting
    ensures e.Begin? && ch == Challenge(e.id, e.operation, e.now, e.now + ttl) && Wellformed(e.operation)
  {
    hide Wellformed, Confirms, Spendable;
    if e.Begin? { BeginsWaiting(w, ttl, e.operation, e.id, e.now, ch); }
  }

  /** Every challenge that waits was begun for its operation, and answers for its window. */
  lemma {:induction false} WaitingStemsFrom(ttl: int, events: seq<Event>, ch: Challenge) returns (i: nat)
    requires ch in Run(START, ttl, events).waiting
    ensures i < |events| && events[i].Begin?
    ensures ch == Challenge(events[i].id, events[i].operation, events[i].now, events[i].now + ttl)
    ensures Wellformed(events[i].operation)
    decreases |events|
  {
    hide Wellformed, Next;
    var (start, e) := (events[..|events| - 1], events[|events| - 1]);
    assert events == start + [e];
    OneMoreEvent(START, ttl, start, e);
    if ch in Run(START, ttl, start).waiting {
      i := WaitingStemsFrom(ttl, start, ch);
    } else {
      OnlyBeginWaits(Run(START, ttl, start), ttl, e, ch);
      i := |events| - 1;
    }
  }

  /** Event `b` requested exactly the operation of the grant, and event `f` is the verifier's answer to that
      very request: the owner was present inside its window. */
  predicate Granted(ttl: int, b: Event, f: Event, c: Capability, g: Grant) {
    && b.Begin? && f.Finish? && f.capability == c
    && g == Grant(b.operation, b.now, b.now + ttl) && f.challenge == Challenge(b.id, b.operation, b.now, b.now + ttl)
    && var p := f.presence;
       && p.Verified? && p.challengeId == b.id && p.binding == b.operation
       && b.now <= p.verifiedAt <= f.now < b.now + ttl
       && 1 <= |p.ownerId| <= 128
       && forall k :: 0 <= k < |p.ownerId| ==>
            var x := p.ownerId[k];
            'a' <= x <= 'z' || 'A' <= x <= 'Z' || '0' <= x <= '9' || x == '_' || x == '-' || x == '.' || x == ':'
  }

  lemma {:induction false} FinishGrants(w: World, ttl: int, b: Event, f: Event, c: Capability)
    requires b.Begin? && f.Finish? && f.challenge == Challenge(b.id, b.operation, b.now, b.now + ttl)
    requires f.capability == c && c !in w.issued && c in Next(w, ttl, f).issued
    ensures Granted(ttl, b, f, c, Next(w, ttl, f).issued[c])
  {
    FinishIssuesIff(w, ttl, f.challenge, f.presence, f.now, c);
  }

  lemma {:induction false} IssuedHereOrBefore(w: World, ttl: int, e: Event, c: Capability)
    requires Possible(w, e) && c in Next(w, ttl, e).issued
    ensures if e.Finish? && e.capability == c && c !in w.issued then e.challenge in w.waiting
            else c in w.issued && Next(w, ttl, e).issued[c] == w.issued[c]
  {
    hide Confirms, Spendable, Wellformed;
  }

  lemma {:induction false} GrantedSomewhere(ttl: int, events: seq<Event>, c: Capability) returns (i: nat, j: nat)
    requires AllPossible(START, ttl, events) && c in Run(START, ttl, events).issued
    ensures i < j < |events| && Granted(ttl, events[i], events[j], c, Run(START, ttl, events).issued[c])
    ensures events[i].Begin? && Wellformed(events[i].operation)
    decreases |events|
  {
    hide Next, Possible, Wellformed, Granted;
    var (start, e) := (events[..|events| - 1], events[|events| - 1]);
    assert events == start + [e];
    OneMoreEvent(START, ttl, start, e);
    var before := Run(START, ttl, start);
    IssuedHereOrBefore(before, ttl, e, c);
    if c in before.issued {
      i, j := GrantedSomewhere(ttl, start, c);
      assert events[i] == start[i] && events[j] == start[j];
    } else {
      i := WaitingStemsFrom(ttl, start, e.challenge);
      j := |events| - 1;
      assert events[i] == start[i];
      FinishGrants(before, ttl, events[i], e, c);
    }
  }

  /** Whatever happens in whatever order: behind every capability ever issued there is a request for
      exactly this operation, and later an answer of the verifier to that very request, by which the
      owner was present inside its window. */
  lemma {:induction false} IssuedStemsFrom(ttl: int, events: seq<Event>, c: Capability) returns (i: nat, j: nat)
    requires AllPossible(START, ttl, events) && c in Run(START, ttl, events).issued
    ensures i < j < |events| && Granted(ttl, events[i], events[j], c, Run(START, ttl, events).issued[c])
    ensures events[i].Begin?
    ensures var o := events[i].operation;
            && (o.targetState.Existing? <==> o.fileIdentity.Some?) && (o.targetState.Existing? <==> o.preimageDigest.Some?)
            && (o.postimageDigest.Some? <==> o.action.CredentialWrite?)
            && (o.targetState.Absent? ==> o.action.CredentialWrite?)
            && (o.destination.Some? <==> o.destinationRootIdentity.Some?)
            && (o.destination.Some? ==> o.action.CredentialWrite? || o.action.Destructive?)
            && o.path != "" && '\\' !in o.path && ':' !in o.path
  {
    hide Run, AllPossible, Wellformed;
    i, j := GrantedSomewhere(ttl, events, c);
    WellformedParts(events[i].operation);
  }

  lemma {:induction false} WellformedParts(o: Operation)
    requires Wellformed(o)
    ensures (o.targetState.Existing? <==> o.fileIdentity.Some?) && (o.targetState.Existing? <==> o.preimageDigest.Some?)
    ensures (o.postimageDigest.Some? <==> o.action.CredentialWrite?) && (o.targetState.Absent? ==> o.action.CredentialWrite?)
    ensures (o.destination.Some? <==> o.destinationRootIdentity.Some?)
    ensures (o.destination.Some? ==> o.action.CredentialWrite? || o.action.Destructive?)
    ensures o.path != "" && '\\' !in o.path && ':' !in o.path
  {
  }

  /** A capability is spent exactly while its grant is live, for its own operation, inside its window. */
  lemma {:induction false} ConsumeSpendsIff(w: World, ttl: int, c: Capability, o: Operation, now: int)
    requires Inv(w)
    ensures Next(w, ttl, Event.Consume(c, o, now)).spent == w.spent + [Use(c, o, now)] <==>
            && c in w.grants && Wellformed(o) && IsDigest(c) && w.grants[c].binding == o
            && -0x1F_FFFF_FFFF_FFFF <= now <= 0x1F_FFFF_FFFF_FFFF && w.grants[c].issuedAt <= now < w.grants[c].expiresAt
  {
    hide Wellformed, IsDigest;
  }

  // ----- the object -----

  class LocalOwnerConsent {
    const ttl: int
    var grants: Grants
    ghost var waiting: set<Challenge>
    ghost var issued: Grants
    ghost var spent: seq<Use>

    ghost function Now(): World
      reads this
    {
      World(grants, waiting, issued, spent)
    }

    constructor (ttl: int)
      requires 0 < ttl <= TTL_LIMIT
      ensures this.ttl == ttl && Now() == START
    {
      this.ttl := ttl;
      grants, waiting, issued, spent := map[], {}, map[], [];
    }

    method Prune(now: int)
      modifies this`grants
      ensures grants == Pruned(old(grants), now)
    {
      grants := map c | c in grants && grants[c].expiresAt > now :: grants[c];
    }

    /** The part of a request before the owner is asked. */
    method Begin(o: Operation, id: string, now: int) returns (ch: Option<Challenge>)
      modifies this
      ensures Now() == Next(old(Now()), ttl, Event.Begin(o, id, now))
      ensures ch.Some? ==> ch.value == Challenge(id, o, now, now + ttl) && ch.value in waiting
      ensures ch.Some? <==> Wellformed(o) && Safe(now) && |grants| < GRANT_LIMIT
    {
      if !Wellformed(o) || !Safe(now) { return None; }
      Prune(now);
      if |grants| >= GRANT_LIMIT { return None; }
      ch := Some(Challenge(id, o, now, now + ttl));
      waiting := waiting + {ch.value};
    }

    /** The part after: everything is checked again, the size of the table included. */
    method Finish(ch: Challenge, p: Presence, now: int, c: Capability) returns (granted: bool)
      requires Possible(Now(), Event.Finish(ch, p, now, c))
      modifies this
      ensures Now() == Next(old(Now()), ttl, Event.Finish(ch, p, now, c))
      ensures granted <==> Confirms(ch, p, now) && |old(grants)| < GRANT_LIMIT
      ensures granted ==> c in grants && grants[c] == Grant(ch.binding, ch.issuedAt, ch.expiresAt)
    {
      waiting := waiting - {ch};
      if p.NotVerified? || p.challengeId != ch.id || p.binding != ch.binding || !Owner(p.ownerId)
         || !Safe(p.verifiedAt) || p.verifiedAt < ch.issuedAt || p.verifiedAt > now || !Safe(now)
         || now < ch.issuedAt || now >= ch.expiresAt || |grants| >= GRANT_LIMIT { return false; }
      grants := grants[c := Grant(ch.binding, ch.issuedAt, ch.expiresAt)];
      issued := issued[c := grants[c]];
      return true;
    }

    /** Compare and delete in one step. */
    method Consume(c: Capability, o: Operation, now: int) returns (ok: bool)
      modifies this
      ensures Now() == Next(old(Now()), ttl, Event.Consume(c, o, now))
      ensures ok <==> Spendable(old(grants), c, o, now)
      ensures ok ==> c !in grants
    {
      if !Wellformed(o) || !IsDigest(c) { return false; }
      Prune(now);
      if c !in grants || grants[c].binding != o || !Safe(now) || now < grants[c].issuedAt || now >= grants[c].expiresAt { return false; }
      grants := grants - {c};
      spent := spent + [Use(c, o, now)];
      return true;
    }
  }
}
