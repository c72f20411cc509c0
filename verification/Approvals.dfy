/** The durable approvals table: requests, decisions by the owner, and single-use consumption. */
module Approvals {
  import opened Wrappers

  const TTL := 30 * 60 * 1000

  datatype Status = Pending | Approved | Consumed | Denied | Expired

  /** `expiresAt` is absent until approval, and on approved rows older than the column. */
  datatype Row = Row(task: string, hash: string, status: Status, expiresAt: Option<int>)

  datatype Table = Table(rows: map<nat, Row>, nextId: nat)

  const EMPTY := Table(map[], 1)

  predicate About(r: Row, task: string, hash: string) {
    r.task == task && r.hash == hash
  }

  predicate Live(r: Row) {
    r.status.Pending? || r.status.Approved?
  }

  predicate Lapsed(r: Row, now: int) {
    r.status.Approved? && r.expiresAt.Some? && r.expiresAt.value <= now
  }

  predicate Usable(r: Row, now: int) {
    r.status.Approved? && r.expiresAt.Some? && r.expiresAt.value > now
  }

  /** The table's unique index, and ids that never repeat. */
  ghost predicate Sound(t: Table) {
    && (forall a, b ::
          a in t.rows && b in t.rows && Live(t.rows[a]) && Live(t.rows[b]) && About(t.rows[a], t.rows[b].task, t.rows[b].hash)
          ==> a == b)
    && (forall id :: id in t.rows ==> id < t.nextId)
  }

  // ----- the statements -----

  function Swept(r: Row, task: string, hash: string, now: int): Row {
    if About(r, task, hash) && Lapsed(r, now) then r.(status := Expired) else r
  }

  /** Approved rows of one pair whose time is over become EXPIRED. */
  function Sweep(t: Table, task: string, hash: string, now: int): Table {
    t.(rows := map id | id in t.rows :: Swept(t.rows[id], task, hash, now))
  }

  function Spent(r: Row, task: string, hash: string, now: int): Row {
    if About(r, task, hash) && Usable(r, now) then r.(status := Consumed) else r
  }

  function Spend(t: Table, task: string, hash: string, now: int): Table {
    t.(rows := map id | id in t.rows :: Spent(t.rows[id], task, hash, now))
  }

  predicate HasUsable(t: Table, task: string, hash: string, now: int) {
    exists id :: id in t.rows && About(t.rows[id], task, hash) && Usable(t.rows[id], now)
  }

  predicate HasLive(t: Table, task: string, hash: string) {
    exists id :: id in t.rows && About(t.rows[id], task, hash) && Live(t.rows[id])
  }

  predicate HasApproved(t: Table, task: string, hash: string) {
    exists id :: id in t.rows && About(t.rows[id], task, hash) && t.rows[id].status.Approved?
  }

  datatype Op =
    | Request(task: string, hash: string, now: int)
    | Approve(id: nat, hash: string, now: int)
    | Deny(id: nat, hash: string)
    | Consume(task: string, hash: string, now: int)

  /** Whether a call succeeds; for `Consume`, whether it returns true. */
  predicate Succeeds(t: Table, op: Op) {
    match op
    case Request(_, hash, _) => hash != ""
    case Approve(id, hash, _) => id in t.rows && t.rows[id].hash == hash && t.rows[id].status.Pending?
    case Deny(id, hash) => id in t.rows && t.rows[id].hash == hash && t.rows[id].status.Pending?
    case Consume(task, hash, now) => HasUsable(t, task, hash, now)
  }

  function Apply(t: Table, op: Op): Table {
    match op
    case Request(task, hash, now) =>
      if hash == "" then t
      else
        var s := Sweep(t, task, hash, now);
        if HasLive(s, task, hash) then s
        else Table(s.rows[s.nextId := Row(task, hash, Pending, None)], s.nextId + 1)
    case Approve(id, _, now) =>
      if !Succeeds(t, op) then t
      else t.(rows := t.rows[id := t.rows[id].(status := Approved, expiresAt := Some(now + TTL))])
    case Deny(id, _) =>
      if !Succeeds(t, op) then t else t.(rows := t.rows[id := t.rows[id].(status := Denied)])
    case Consume(task, hash, now) => Spend(Sweep(t, task, hash, now), task, hash, now)
  }

  function ApplyAll(t: Table, ops: seq<Op>): Table
    decreases |ops|
  {
    if ops == [] then t else ApplyAll(Apply(t, ops[0]), ops[1..])
  }

  // ----- at most one live row per pair -----

  lemma {:induction false} SweepStaysSound(t: Table, task: string, hash: string, now: int)
    requires Sound(t)
    ensures Sound(Sweep(t, task, hash, now)) && Sound(Spend(t, task, hash, now))
  {
  }

  lemma {:induction false} StaysSound(t: Table, op: Op)
    requires Sound(t)
    ensures Sound(Apply(t, op))
  {
    match op
    case Request(task, hash, now) => SweepStaysSound(t, task, hash, now);
    case Consume(task, hash, now) =>
      SweepStaysSound(t, task, hash, now);
      SweepStaysSound(Sweep(t, task, hash, now), task, hash, now);
    case _ =>
  }

  lemma {:induction false} RunsStaySound(t: Table, ops: seq<Op>)
    requires Sound(t)
    ensures Sound(ApplyAll(t, ops))
    decreases |ops|
  {
    if ops != [] {
      StaysSound(t, ops[0]);
      RunsStaySound(Apply(t, ops[0]), ops[1..]);
    }
  }

  // ----- conservation -----

  /** Approvals given to a pair, and consumptions of it, over a run. */
  function ApprovalsGiven(t: Table, ops: seq<Op>, task: string, hash: string): nat
    decreases |ops|
  {
    if ops == [] then 0
    else (if ops[0].Approve? && Succeeds(t, ops[0]) && t.rows[ops[0].id].task == task && ops[0].hash == hash then 1 else 0)
         + ApprovalsGiven(Apply(t, ops[0]), ops[1..], task, hash)
  }

  function Consumptions(t: Table, ops: seq<Op>, task: string, hash: string): nat
    decreases |ops|
  {
    if ops == [] then 0
    else (if ops[0].Consume? && Succeeds(t, ops[0]) && ops[0].task == task && ops[0].hash == hash then 1 else 0)
         + Consumptions(Apply(t, ops[0]), ops[1..], task, hash)
  }

  function One(b: bool): nat { if b then 1 else 0 }

  lemma {:induction false} UsableIsApproved(t: Table, task: string, hash: string, now: int)
    requires HasUsable(t, task, hash, now)
    ensures HasApproved(t, task, hash)
  {
    var id :| id in t.rows && About(t.rows[id], task, hash) && Usable(t.rows[id], now);
    assert t.rows[id].status.Approved?;
  }

  /** Sweeping makes no approval. */
  lemma {:induction false} SweepMakesNone(t: Table, task: string, hash: string, now: int, k: string, h: string)
    requires HasApproved(Sweep(t, task, hash, now), k, h)
    ensures HasApproved(t, k, h)
  {
    var s := Sweep(t, task, hash, now);
    var id :| id in s.rows && About(s.rows[id], k, h) && s.rows[id].status.Approved?;
    assert About(t.rows[id], k, h) && t.rows[id].status.Approved?;
  }

  lemma {:induction false} SpendMakesNone(t: Table, task: string, hash: string, now: int, k: string, h: string)
    requires HasApproved(Spend(t, task, hash, now), k, h)
    ensures HasApproved(t, k, h)
  {
    var s := Spend(t, task, hash, now);
    var id :| id in s.rows && About(s.rows[id], k, h) && s.rows[id].status.Approved?;
    assert About(t.rows[id], k, h) && t.rows[id].status.Approved?;
  }

  /** A successful consumption leaves the pair without an approval. */
  lemma {:induction false} ConsumeEmpties(t: Table, task: string, hash: string, now: int)
    requires Sound(t) && HasUsable(t, task, hash, now)
    ensures !HasApproved(Apply(t, Consume(task, hash, now)), task, hash)
  {
    var u :| u in t.rows && About(t.rows[u], task, hash) && Usable(t.rows[u], now);
    var s := Apply(t, Consume(task, hash, now));
    forall id | id in s.rows && About(s.rows[id], task, hash) ensures !s.rows[id].status.Approved? {
      assert About(t.rows[id], task, hash);
      assert Live(t.rows[u]);
      if id != u { assert !Live(t.rows[id]); }
    }
  }

  /** One step moves the balance by at most what it approves or consumes. */
  lemma {:induction false} StepConserves(t: Table, op: Op, task: string, hash: string)
    requires Sound(t)
    ensures One(op.Consume? && Succeeds(t, op) && op.task == task && op.hash == hash) + One(HasApproved(Apply(t, op), task, hash))
            <= One(op.Approve? && Succeeds(t, op) && t.rows[op.id].task == task && op.hash == hash) + One(HasApproved(t, task, hash))
  {
    match op
    case Request(k, h, now) => RequestMakesNone(t, k, h, now, task, hash);
    case Approve(id, h, now) => OneRowChanged(t, op, id, task, hash);
    case Deny(id, h) => OneRowChanged(t, op, id, task, hash);
    case Consume(k, h, now) =>
      var s := Sweep(t, k, h, now);
      if HasApproved(Apply(t, op), task, hash) {
        SpendMakesNone(s, k, h, now, task, hash);
        SweepMakesNone(t, k, h, now, task, hash);
      }
      if HasUsable(t, k, h, now) {
        UsableIsApproved(t, k, h, now);
        ConsumeEmpties(t, k, h, now);
      }
  }

  lemma {:induction false} RequestMakesNone(t: Table, k: string, h: string, now: int, task: string, hash: string)
    ensures HasApproved(Apply(t, Request(k, h, now)), task, hash) ==> HasApproved(t, task, hash)
  {
    var s := Sweep(t, k, h, now);
    var v := Apply(t, Request(k, h, now));
    if HasApproved(v, task, hash) && h != "" {
      var id :| id in v.rows && About(v.rows[id], task, hash) && v.rows[id].status.Approved?;
      assert id in s.rows && s.rows[id] == v.rows[id];
      SweepMakesNone(t, k, h, now, task, hash);
    }
  }

  lemma {:induction false} OneRowChanged(t: Table, op: Op, id: nat, task: string, hash: string)
    requires (op.Approve? || op.Deny?) && op.id == id
    ensures HasApproved(Apply(t, op), task, hash) ==>
              HasApproved(t, task, hash) || (op.Approve? && Succeeds(t, op) && t.rows[id].task == task && op.hash == hash)
  {
    var v := Apply(t, op);
    if HasApproved(v, task, hash) {
      var k :| k in v.rows && About(v.rows[k], task, hash) && v.rows[k].status.Approved?;
      if k != id || !Succeeds(t, op) { assert About(t.rows[k], task, hash) && t.rows[k].status.Approved?; }
    }
  }

  /** Over any run, a pair's approvals are spent at most once each. */
  lemma {:induction false} ConsumesWithinApprovals(t: Table, ops: seq<Op>, task: string, hash: string)
    requires Sound(t)
    ensures Consumptions(t, ops, task, hash) + One(HasApproved(ApplyAll(t, ops), task, hash))
            <= ApprovalsGiven(t, ops, task, hash) + One(HasApproved(t, task, hash))
    decreases |ops|
  {
    if ops != [] {
      StaysSound(t, ops[0]);
      StepConserves(t, ops[0], task, hash);
      ConsumesWithinApprovals(Apply(t, ops[0]), ops[1..], task, hash);
    }
  }

  lemma {:induction false} FirstOf(t: Table, ops: seq<Op>, i: nat)
    requires i < |ops|
    ensures ApplyAll(t, ops[i..]) == ApplyAll(Apply(t, ops[i]), ops[i + 1..])
  {
    assert ops[i..][0] == ops[i] && ops[i..][1..] == ops[i + 1..];
  }

  lemma {:induction false} NoneLeft(t: Table, ops: seq<Op>)
    ensures ApplyAll(t, ops[|ops|..]) == t
  {
  }

  // ----- the repository object -----

  class ApprovalRepository {
    var rows: map<nat, Row>
    var nextId: nat

    function Contents(): Table
      reads this
    {
      Table(rows, nextId)
    }

    ghost predicate Valid()
      reads this
    {
      Sound(Contents())
    }

    constructor ()
      ensures Valid() && Contents() == EMPTY
    {
      rows, nextId := map[], 1;
    }

    /** Returns the live row of the pair, a new one if there is none. */
    method Request(task: string, hash: string, now: int) returns (id: Option<nat>)
      requires Valid()
      modifies this
      ensures Valid()
      ensures Contents() == Apply(old(Contents()), Op.Request(task, hash, now))
      ensures id.Some? <==> Succeeds(old(Contents()), Op.Request(task, hash, now))
      ensures id.Some? ==> id.value in rows && About(rows[id.value], task, hash) && Live(rows[id.value])
    {
      StaysSound(Contents(), Op.Request(task, hash, now));
      if hash == "" { return None; }
      rows := map i | i in rows :: Swept(rows[i], task, hash, now);
      if HasLive(Contents(), task, hash) {
        var live :| live in rows && About(rows[live], task, hash) && Live(rows[live]);
        return Some(live);
      }
      rows, nextId := rows[nextId := Row(task, hash, Pending, None)], nextId + 1;
      return Some(nextId - 1);
    }

    method Approve(id: nat, hash: string, now: int) returns (ok: bool)
      requires Valid()
      modifies this
      ensures Valid()
      ensures Contents() == Apply(old(Contents()), Op.Approve(id, hash, now))
      ensures ok <==> Succeeds(old(Contents()), Op.Approve(id, hash, now))
    {
      StaysSound(Contents(), Op.Approve(id, hash, now));
      if id !in rows || rows[id].hash != hash || !rows[id].status.Pending? { return false; }
      rows := rows[id := rows[id].(status := Approved, expiresAt := Some(now + TTL))];
      return true;
    }

    method Deny(id: nat, hash: string) returns (ok: bool)
      requires Valid()
      modifies this
      ensures Valid()
      ensures Contents() == Apply(old(Contents()), Op.Deny(id, hash))
      ensures ok <==> Succeeds(old(Contents()), Op.Deny(id, hash))
    {
      StaysSound(Contents(), Op.Deny(id, hash));
      if id !in rows || rows[id].hash != hash || !rows[id].status.Pending? { return false; }
      rows := rows[id := rows[id].(status := Denied)];
      return true;
    }

    /** True exactly when an unexpired approval of the pair existed, which is then spent: the pair has
        no approval left, whoever asks next. */
    method Consume(task: string, hash: string, now: int) returns (ok: bool)
      requires Valid()
      modifies this
      ensures Valid()
      ensures Contents() == Apply(old(Contents()), Op.Consume(task, hash, now))
      ensures ok <==> HasUsable(old(Contents()), task, hash, now)
      ensures ok ==> !HasApproved(Contents(), task, hash)
    {
      StaysSound(Contents(), Op.Consume(task, hash, now));
      SweepKeepsUsable(Contents(), task, hash, now);
      rows := map i | i in rows :: Swept(rows[i], task, hash, now);
      ok := HasUsable(Contents(), task, hash, now);
      if old(HasUsable(Contents(), task, hash, now)) { ConsumeEmpties(old(Contents()), task, hash, now); }
      rows := map i | i in rows :: Spent(rows[i], task, hash, now);
    }

    /** Calls of other users, one after the other. */
    method Perform(ops: seq<Op>)
      requires Valid()
      modifies this
      ensures Valid()
      ensures Contents() == ApplyAll(old(Contents()), ops)
    {
      hide *;
      var i := 0;
      ghost var final := ApplyAll(Contents(), ops);
      assert ops[0..] == ops;
      while i < |ops|
        invariant i <= |ops| && Valid()
        invariant final == ApplyAll(Contents(), ops[i..])
      {
        FirstOf(Contents(), ops, i);
        match ops[i] {
          case Request(task, hash, now) => var _ := Request(task, hash, now);
          case Approve(id, hash, now) => var _ := Approve(id, hash, now);
          case Deny(id, hash) => var _ := Deny(id, hash);
          case Consume(task, hash, now) => var _ := Consume(task, hash, now);
        }
        i := i + 1;
      }
      NoneLeft(Contents(), ops);
    }
  }

  lemma {:induction false} SweepKeepsUsable(t: Table, task: string, hash: string, now: int)
    ensures HasUsable(Sweep(t, task, hash, now), task, hash, now) <==> HasUsable(t, task, hash, now)
  {
    var s := Sweep(t, task, hash, now);
    if HasUsable(t, task, hash, now) {
      var id :| id in t.rows && About(t.rows[id], task, hash) && Usable(t.rows[id], now);
      assert s.rows[id] == t.rows[id];
    }
    if HasUsable(s, task, hash, now) {
      var id :| id in s.rows && About(s.rows[id], task, hash) && Usable(s.rows[id], now);
      assert s.rows[id] == t.rows[id];
    }
  }

  // ----- what may happen to a row -----

  lemma {:induction false} NoneLiveMeans(t: Table, task: string, hash: string, now: int)
    requires !HasLive(Sweep(t, task, hash, now), task, hash)
    ensures forall k :: k in t.rows && t.rows[k].task == task && t.rows[k].hash == hash ==> !Live(t.rows[k]) || Lapsed(t.rows[k], now)
  {
    var s := Sweep(t, task, hash, now);
    forall k | k in t.rows && t.rows[k].task == task && t.rows[k].hash == hash
      ensures !Live(t.rows[k]) || Lapsed(t.rows[k], now)
    {
      assert k in s.rows && About(s.rows[k], task, hash) && !Live(s.rows[k]);
    }
  }

  /** Over any step of the table: no row is ever lost or changes its pair; a pending row is approved or
      denied only by a decision on itself with its own hash, for thirty minutes; an approved row
      expires only after its time and is consumed only within it, by a call about its own pair; and a
      new row is a pending one of the pair that was requested. */
  lemma {:induction false} RowsMove(t: Table, op: Op, id: nat)
    requires Sound(t) && id in Apply(t, op).rows
    ensures id !in t.rows ==>
              && op.Request? && op.hash != "" && id == t.nextId && Apply(t, op).nextId == t.nextId + 1
              && Apply(t, op).rows[id] == Row(op.task, op.hash, Pending, None)
              && forall k :: k in t.rows && t.rows[k].task == op.task && t.rows[k].hash == op.hash ==>
                   && t.rows[k].status != Pending
                   && (t.rows[k].status == Approved ==> t.rows[k].expiresAt.Some? && t.rows[k].expiresAt.value <= op.now)
    ensures id in t.rows && Apply(t, op).rows[id] != t.rows[id] ==>
              var (r, s) := (t.rows[id], Apply(t, op).rows[id]);
              && s.task == r.task && s.hash == r.hash
              && (|| (r.status.Pending? && op.Approve? && op.id == id && op.hash == r.hash
                      && s.status.Approved? && s.expiresAt == Some(op.now + 1_800_000))
                  || (r.status.Pending? && op.Deny? && op.id == id && op.hash == r.hash
                      && s.status.Denied? && s.expiresAt == r.expiresAt)
                  || (r.status.Approved? && (op.Request? || op.Consume?) && op.task == r.task && op.hash == r.hash
                      && s.status.Expired? && s.expiresAt == r.expiresAt && r.expiresAt.Some? && r.expiresAt.value <= op.now)
                  || (r.status.Approved? && op.Consume? && op.task == r.task && op.hash == r.hash
                      && s.status.Consumed? && s.expiresAt == r.expiresAt && r.expiresAt.Some? && r.expiresAt.value > op.now))
  {
    if id !in t.rows && op.Request? { NoneLiveMeans(t, op.task, op.hash, op.now); }
  }

  /** The index, from the rows alone. */
  lemma {:induction false} SoundMeans(t: Table, a: nat, b: nat)
    requires Sound(t) && a in t.rows && b in t.rows && t.rows[a].task == t.rows[b].task && t.rows[a].hash == t.rows[b].hash
    requires t.rows[a].status in {Pending, Approved} && t.rows[b].status in {Pending, Approved}
    ensures a == b && a < t.nextId
  {
    assert About(t.rows[a], t.rows[b].task, t.rows[b].hash);
  }

  /** And these moves do happen: an answer by the right id and hash, an expiry that is met by a request or
      a consumption of its pair, a consumption in time. */
  lemma {:induction false} RowsMustMove(t: Table, op: Op, id: nat)
    requires Sound(t) && id in t.rows
    ensures t.rows[id].status.Pending? && op.Approve? && op.id == id && op.hash == t.rows[id].hash ==>
              Succeeds(t, op) && Apply(t, op).rows[id].status.Approved?
    ensures t.rows[id].status.Pending? && op.Deny? && op.id == id && op.hash == t.rows[id].hash ==>
              Succeeds(t, op) && Apply(t, op).rows[id].status.Denied?
    ensures (op.Consume? || (op.Request? && op.hash != "")) && t.rows[id].status.Approved? && t.rows[id].task == op.task
            && t.rows[id].hash == op.hash && t.rows[id].expiresAt.Some? && t.rows[id].expiresAt.value <= op.now ==>
              Apply(t, op).rows[id].status.Expired?
    ensures op.Consume? && t.rows[id].status.Approved? && t.rows[id].task == op.task
            && t.rows[id].hash == op.hash && t.rows[id].expiresAt.Some? && t.rows[id].expiresAt.value > op.now ==>
              Succeeds(t, op) && Apply(t, op).rows[id].status.Consumed?
  {
  }

  /** When a call succeeds, told from the rows alone. */
  lemma {:induction false} SucceedsIff(t: Table, op: Op)
    ensures Succeeds(t, op) <==>
              || (op.Request? && op.hash != "")
              || ((op.Approve? || op.Deny?) && op.id in t.rows && t.rows[op.id].hash == op.hash && t.rows[op.id].status == Pending)
              || (op.Consume? && exists id :: && id in t.rows && t.rows[id].task == op.task && t.rows[id].hash == op.hash
                                              && t.rows[id].status == Approved && t.rows[id].expiresAt.Some?
                                              && t.rows[id].expiresAt.value > op.now)
  {
    if op.Consume? && Succeeds(t, op) {
      var id :| id in t.rows && About(t.rows[id], op.task, op.hash) && Usable(t.rows[id], op.now);
    }
    forall id | && op.Consume? && id in t.rows && t.rows[id].task == op.task && t.rows[id].hash == op.hash
                && t.rows[id].status == Approved && t.rows[id].expiresAt.Some? && t.rows[id].expiresAt.value > op.now
      ensures Succeeds(t, op)
    {
      assert About(t.rows[id], op.task, op.hash) && Usable(t.rows[id], op.now);
    }
  }

  lemma {:induction false} RowsStay(t: Table, op: Op)
    requires Sound(t)
    ensures t.rows.Keys <= Apply(t, op).rows.Keys
  {
  }
}
