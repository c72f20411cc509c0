/** The durable journal of local workspace operations: rows in a keyed table with one partial unique
    index, and an append-only event log, both changed only by whole transactions. */
module Journal {
  import opened Formats
  import opened Wrappers

  datatype Kind = Read | Mutation
  datatype State = Observing | Prepared | Applied | Denied | Unresolved

  datatype Admission = Admission(id: string, kind: Kind, operation: string, rootId: string, rootIdentity: string,
                                 volumeKey: string, pathFingerprint: string, bindingDigest: string)

  /** The metadata an operation may report; `previousVersion` may be present and null. */
  datatype Metadata = Metadata(version: Option<string>, previousVersion: Option<Option<string>>,
                               recoveryId: Option<string>, bytes: Option<int>, created: Option<bool>,
                               moved: Option<bool>, restored: Option<bool>, sourceRemoved: Option<bool>)

  const NOTHING := Metadata(None, None, None, None, None, None, None, None)
  const MAX_SAFE_INTEGER := 0x1F_FFFF_FFFF_FFFF

  datatype Row = Row(input: Admission, state: State, recoveryId: Option<string>, result: Option<Metadata>)

  datatype Mark = Entered(state: State) | RecoveryCaptured
  datatype Event = Event(id: string, mark: Mark)
  datatype Store = Store(rows: map<string, Row>, events: seq<Event>)

  const EMPTY := Store(map[], [])

  // ----- what a row may hold -----

  predicate IsVolume(s: string) {
    || ("windows:" <= s && Digits(s[8..]))
    || ("linux:" <= s && Digits(s[6..]))
  }

  const READS := {"list", "stat", "read", "search", "binary-read", "convert-path", "reveal"}
  const MUTATIONS := {"write", "patch", "mkdir", "move", "copy", "trash", "restore", "binary-write"}

  predicate Admissible(a: Admission) {
    && IsId(a.id)
    && a.operation in (if a.kind.Read? then READS else MUTATIONS)
    && IsRootId(a.rootId)
    && IsIdentity(a.rootIdentity)
    && IsVolume(a.volumeKey)
    && IsDigest(a.pathFingerprint)
    && IsDigest(a.bindingDigest)
  }

  predicate Reportable(m: Metadata) {
    && (m.version.Some? ==> IsDigest(m.version.value))
    && (m.previousVersion.Some? && m.previousVersion.value.Some? ==> IsDigest(m.previousVersion.value.value))
    && (m.recoveryId.Some? ==> IsId(m.recoveryId.value))
    && (m.bytes.Some? ==> 0 <= m.bytes.value <= MAX_SAFE_INTEGER)
  }

  /** What may be admitted, and what may be reported, spelled out. */
  lemma {:induction false} AdmissibleSpelled(a: Admission)
    ensures Admissible(a) <==>
            && IsId(a.id) && IsRootId(a.rootId) && IsIdentity(a.rootIdentity)
            && (exists number :: Digits(number) && (a.volumeKey == "windows:" + number || a.volumeKey == "linux:" + number))
            && IsDigest(a.pathFingerprint) && IsDigest(a.bindingDigest)
            && (a.kind.Read? ==> a.operation in ["list", "stat", "read", "search", "binary-read", "convert-path", "reveal"])
            && (a.kind.Mutation? ==>
                  a.operation in ["write", "patch", "mkdir", "move", "copy", "trash", "restore", "binary-write"])
  {
    hide IsId, IsRootId, IsIdentity, IsDigest, Digits;
    if IsVolume(a.volumeKey) {
      if "windows:" <= a.volumeKey && Digits(a.volumeKey[8..]) {
        assert a.volumeKey == "windows:" + a.volumeKey[8..];
      } else {
        assert a.volumeKey == "linux:" + a.volumeKey[6..];
      }
    }
    forall number | Digits(number) && (a.volumeKey == "windows:" + number || a.volumeKey == "linux:" + number)
      ensures IsVolume(a.volumeKey)
    {
      if a.volumeKey == "windows:" + number {
        assert a.volumeKey[8..] == number;
      } else {
        assert a.volumeKey[6..] == number;
      }
    }
  }

  lemma {:induction false} ReportableSpelled(m: Metadata)
    ensures Reportable(m) <==>
            && (forall v :: m.version == Some(v) ==> IsDigest(v)) && (forall v :: m.previousVersion == Some(Some(v)) ==> IsDigest(v))
            && (forall v :: m.recoveryId == Some(v) ==> IsId(v))
            && forall n :: m.bytes == Some(n) ==> 0 <= n <= 0x1F_FFFF_FFFF_FFFF
  {
    hide IsId, IsDigest;
    assert m.previousVersion.Some? && m.previousVersion.value.Some? ==> m.previousVersion == Some(Some(m.previousVersion.value.value));
  }

  /** What a row that is read back says about its operation. */
  lemma {:induction false} ReadableSpelled(r: Row)
    requires Readable(r)
    ensures r.state.Applied? ==> r.result.Some?
    ensures r.state.Prepared? || r.state.Observing? ==> r.result.None?
    ensures r.state.Observing? ==> r.input.kind.Read?
    ensures r.state.Prepared? || r.state.Unresolved? ==> r.input.kind.Mutation?
    ensures r.result.Some? ==> Reportable(r.result.value)
    ensures r.recoveryId.Some? ==> IsId(r.recoveryId.value)
    ensures Admissible(r.input)
  {
  }

  /** The checks a row must pass every time it is read back. */
  predicate Readable(r: Row) {
    && Admissible(r.input)
    && (r.state.Applied? ==> r.result.Some?)
    && (r.state.Prepared? || r.state.Observing? ==> r.result.None?)
    && (r.state.Observing? ==> r.input.kind.Read?)
    && (r.state.Prepared? || r.state.Unresolved? ==> r.input.kind.Mutation?)
    && (r.result.Some? ==> Reportable(r.result.value))
    && (r.recoveryId.Some? ==> IsId(r.recoveryId.value))
  }

  // ----- the partial unique index -----

  /** Rows the index on volumes covers. */
  predicate Active(r: Row) {
    r.input.kind.Mutation? && (r.state.Prepared? || r.state.Unresolved?)
  }

  predicate Busy(rows: map<string, Row>, volume: string) {
    exists id :: id in rows && Active(rows[id]) && rows[id].input.volumeKey == volume
  }

  ghost predicate OnePerVolume(rows: map<string, Row>) {
    forall a, b ::
      a in rows && b in rows && Active(rows[a]) && Active(rows[b]) && rows[a].input.volumeKey == rows[b].input.volumeKey
      ==> a == b
  }

  // ----- the event log -----

  datatype Status = Absent | At(state: State, captured: bool) | Broken

  function History(events: seq<Event>, id: string): seq<Mark> {
    if events == [] then []
    else
      var last := events[|events| - 1];
      History(events[..|events| - 1], id) + (if last.id == id then [last.mark] else [])
  }

  /** What one event makes of an operation. */
  function Advance(s: Status, m: Mark): Status {
    match s
    case Absent =>
      if m == Entered(Observing) || m == Entered(Prepared) then At(m.state, false) else Broken
    case At(Observing, c) =>
      if m == Entered(Applied) || m == Entered(Denied) then At(m.state, c) else Broken
    case At(Prepared, c) =>
      if m.RecoveryCaptured? && !c then At(Prepared, true)
      else if m == Entered(Applied) || m == Entered(Denied) || m == Entered(Unresolved) then At(m.state, c)
      else Broken
    case _ => Broken
  }

  function Fold(marks: seq<Mark>): Status {
    if marks == [] then Absent else Advance(Fold(marks[..|marks| - 1]), marks[|marks| - 1])
  }

  function StatusOf(s: Store, id: string): Status {
    if id in s.rows then At(s.rows[id].state, s.rows[id].recoveryId.Some?) else Absent
  }

  /** What every reachable store satisfies. */
  ghost predicate Sound(s: Store) {
    && (forall id :: id in s.rows ==> s.rows[id].input.id == id && Readable(s.rows[id]))
    && OnePerVolume(s.rows)
    && (forall id :: Fold(History(s.events, id)) == StatusOf(s, id))
  }

  // ----- the transactions -----

  datatype Op =
    | Admit(input: Admission)
    | Finish(id: string, state: State, result: Metadata)
    | Attach(id: string, recovery: string)

  function Opening(a: Admission): Row {
    Row(a, if a.kind.Read? then Observing else Prepared, None, None)
  }

  /** Whether a transaction commits or throws. */
  predicate Accepts(s: Store, op: Op) {
    match op
    case Admit(a) =>
      && Admissible(a)
      && (if a.id in s.rows then s.rows[a.id].input == a else a.kind.Mutation? ==> !Busy(s.rows, a.volumeKey))
    case Finish(id, state, result) =>
      && (state.Applied? || state.Denied? || state.Unresolved?)
      && Reportable(result)
      && id in s.rows
      && (s.rows[id].state.Prepared? || (s.rows[id].state.Observing? && !state.Unresolved?))
    case Attach(id, recovery) =>
      && IsId(recovery)
      && id in s.rows && s.rows[id].state.Prepared? && s.rows[id].recoveryId.None?
  }

  /** The store after a transaction; one that throws leaves it alone. */
  function Apply(s: Store, op: Op): Store {
    if !Accepts(s, op) then s
    else match op
      case Admit(a) =>
        if a.id in s.rows then s
        else Store(s.rows[a.id := Opening(a)], s.events + [Event(a.id, Entered(Opening(a).state))])
      case Finish(id, state, result) =>
        Store(s.rows[id := s.rows[id].(state := state, result := Some(result))], s.events + [Event(id, Entered(state))])
      case Attach(id, recovery) =>
        Store(s.rows[id := s.rows[id].(recoveryId := Some(recovery))], s.events + [Event(id, RecoveryCaptured)])
  }

  function ApplyAll(s: Store, ops: seq<Op>): Store
    decreases |ops|
  {
    if ops == [] then s else ApplyAll(Apply(s, ops[0]), ops[1..])
  }

  // ----- every reachable store is sound -----

  lemma {:induction false} HistoryGrows(events: seq<Event>, e: Event, id: string)
    ensures History(events + [e], id) == History(events, id) + (if e.id == id then [e.mark] else [])
  {
    assert (events + [e])[..|events|] == events;
  }

  lemma {:induction false} FoldGrows(events: seq<Event>, e: Event, id: string)
    ensures Fold(History(events + [e], id)) ==
            if e.id == id then Advance(Fold(History(events, id)), e.mark) else Fold(History(events, id))
  {
    HistoryGrows(events, e, id);
    if e.id == id {
      var marks := History(events, id);
      assert (marks + [e.mark])[..|marks|] == marks;
    } else {
      assert History(events, id) + [] == History(events, id);
    }
  }

  /** The event an accepted transaction appends, if any. */
  function Logged(s: Store, op: Op): seq<Event> {
    match op
    case Admit(a) => if a.id in s.rows then [] else [Event(a.id, Entered(Opening(a).state))]
    case Finish(id, state, _) => [Event(id, Entered(state))]
    case Attach(id, _) => [Event(id, RecoveryCaptured)]
  }

  lemma {:induction false} StatusAdvances(s: Store, op: Op, id: string)
    requires Sound(s) && Accepts(s, op)
    ensures Apply(s, op).events == s.events + Logged(s, op)
    ensures Logged(s, op) == [] || Logged(s, op)[0].id != id ==> StatusOf(Apply(s, op), id) == StatusOf(s, id)
    ensures Logged(s, op) != [] && Logged(s, op)[0].id == id ==>
              StatusOf(Apply(s, op), id) == Advance(StatusOf(s, id), Logged(s, op)[0].mark)
  {
  }

  lemma {:induction false} EventsStaySound(s: Store, op: Op, id: string)
    requires Sound(s) && Accepts(s, op)
    ensures Fold(History(Apply(s, op).events, id)) == StatusOf(Apply(s, op), id)
  {
    StatusAdvances(s, op, id);
    if Logged(s, op) != [] {
      FoldGrows(s.events, Logged(s, op)[0], id);
    }
  }

  lemma {:induction false} RowStaysReadable(s: Store, op: Op, id: string)
    requires Sound(s) && Accepts(s, op) && id in Apply(s, op).rows
    ensures Apply(s, op).rows[id].input.id == id && Readable(Apply(s, op).rows[id])
  {
    if id in s.rows { assert Readable(s.rows[id]); }
  }

  /** Only an admission makes a row active, and only where the volume was free. */
  lemma {:induction false} ActiveBefore(s: Store, op: Op, id: string)
    requires Accepts(s, op) && id in Apply(s, op).rows && Active(Apply(s, op).rows[id])
    ensures id in s.rows ==> Active(s.rows[id]) && s.rows[id].input == Apply(s, op).rows[id].input
    ensures id !in s.rows ==> op.Admit? && op.input.id == id && !Busy(s.rows, Apply(s, op).rows[id].input.volumeKey)
  {
  }

  lemma {:induction false} VolumesStayExclusive(s: Store, op: Op)
    requires Sound(s) && Accepts(s, op)
    ensures OnePerVolume(Apply(s, op).rows)
  {
    var t := Apply(s, op).rows;
    forall a, b | a in t && b in t && Active(t[a]) && Active(t[b]) && t[a].input.volumeKey == t[b].input.volumeKey
      ensures a == b
    {
      ActiveBefore(s, op, a);
      ActiveBefore(s, op, b);
    }
  }

  lemma {:induction false} StaysSound(s: Store, op: Op)
    requires Sound(s)
    ensures Sound(Apply(s, op))
  {
    if Accepts(s, op) {
      VolumesStayExclusive(s, op);
      forall id | id in Apply(s, op).rows ensures Apply(s, op).rows[id].input.id == id && Readable(Apply(s, op).rows[id]) {
        RowStaysReadable(s, op, id);
      }
      forall id ensures Fold(History(Apply(s, op).events, id)) == StatusOf(Apply(s, op), id) {
        EventsStaySound(s, op, id);
      }
    }
  }

  /** In every run: one PREPARED or UNRESOLVED mutation per volume, every row readable, and each
      row's state the fold of its own events. */
  lemma {:induction false} RunsStaySound(s: Store, ops: seq<Op>)
    requires Sound(s)
    ensures Sound(ApplyAll(s, ops))
    decreases |ops|
  {
    if ops != [] {
      StaysSound(s, ops[0]);
      RunsStaySound(Apply(s, ops[0]), ops[1..]);
    }
  }

  lemma {:induction false} EmptyIsSound()
    ensures Sound(EMPTY)
  {
  }

  /** What every run from the empty store keeps, spelled out. */
  lemma {:induction false} InEveryRun(ops: seq<Op>, a: string, b: string)
    requires a in ApplyAll(EMPTY, ops).rows && b in ApplyAll(EMPTY, ops).rows
    ensures var s := ApplyAll(EMPTY, ops);
            && s.rows[a].input.id == a && Readable(s.rows[a])
            && Fold(History(s.events, a)) == At(s.rows[a].state, s.rows[a].recoveryId.Some?)
            && (Active(s.rows[a]) && Active(s.rows[b]) && s.rows[a].input.volumeKey == s.rows[b].input.volumeKey ==> a == b)
  {
    EmptyIsSound();
    RunsStaySound(EMPTY, ops);
  }

  // ----- finality -----

  predicate Final(s: State) { s.Applied? || s.Denied? || s.Unresolved? }

  /** A finished row never changes again: not its state, its result, its recovery or its binding. */
  lemma {:induction false} FinalForever(s: Store, ops: seq<Op>, id: string)
    requires id in s.rows && Final(s.rows[id].state)
    ensures id in ApplyAll(s, ops).rows && ApplyAll(s, ops).rows[id] == s.rows[id]
    decreases |ops|
  {
    if ops != [] {
      FinalForever(Apply(s, ops[0]), ops[1..], id);
    }
  }

  lemma {:induction false} AdmittedElsewhere(s: Store, op: Op, id: string, other: string)
    requires Sound(s) && id in s.rows && s.rows[id].state.Unresolved?
    requires other !in s.rows && other in Apply(s, op).rows
    ensures Apply(s, op).rows[other].input.kind.Read?
            || Apply(s, op).rows[other].input.volumeKey != s.rows[id].input.volumeKey
  {
    assert Readable(s.rows[id]);
  }

  /** An UNRESOLVED mutation closes its volume for good: no run ever admits another one there, and
      the rows of that volume that are active stay exactly this one. */
  lemma {:induction false} UnresolvedBlocksVolume(s: Store, ops: seq<Op>, id: string, other: string)
    requires Sound(s) && id in s.rows && s.rows[id].state.Unresolved?
    requires other !in s.rows
    requires other in ApplyAll(s, ops).rows
    ensures ApplyAll(s, ops).rows[other].input.kind.Read?
            || ApplyAll(s, ops).rows[other].input.volumeKey != s.rows[id].input.volumeKey
    decreases |ops|
  {
    if ops != [] {
      var t := Apply(s, ops[0]);
      StaysSound(s, ops[0]);
      if other in t.rows {
        AdmittedElsewhere(s, ops[0], id, other);
        BindingForever(t, ops[1..], other);
      } else {
        FinalForever(s, [ops[0]], id);
        UnresolvedBlocksVolume(t, ops[1..], id, other);
      }
    }
  }

  /** At every later moment a new mutation on that volume is refused. */
  lemma {:induction false} UnresolvedRefuses(s: Store, ops: seq<Op>, id: string, a: Admission)
    requires Sound(s) && id in s.rows && s.rows[id].state.Unresolved?
    requires a.kind.Mutation? && a.volumeKey == s.rows[id].input.volumeKey && a.id !in ApplyAll(s, ops).rows
    ensures !Accepts(ApplyAll(s, ops), Op.Admit(a))
  {
    FinalForever(s, ops, id);
    assert Readable(s.rows[id]);
    assert Active(ApplyAll(s, ops).rows[id]);
  }

  /** What was admitted under an id stays bound to it. */
  lemma {:induction false} BindingForever(s: Store, ops: seq<Op>, id: string)
    requires id in s.rows
    ensures id in ApplyAll(s, ops).rows && ApplyAll(s, ops).rows[id].input == s.rows[id].input
    decreases |ops|
  {
    if ops != [] {
      BindingForever(Apply(s, ops[0]), ops[1..], id);
    }
  }

  // ----- one mutation after another -----

  /** A mutation that would be admitted now. */
  predicate Ready(s: Store, a: Admission) {
    Admissible(a) && a.kind.Mutation? && a.id !in s.rows && !Busy(s.rows, a.volumeKey)
  }

  /** The three transactions of a mutation that records a preimage and ends APPLIED. */
  function Turn(s: Store, a: Admission, recovery: string, result: Metadata): Store {
    Apply(Apply(Apply(s, Admit(a)), Attach(a.id, recovery)), Finish(a.id, Applied, result))
  }

  lemma {:induction false} TurnAccepted(s: Store, a: Admission, recovery: string, result: Metadata)
    requires Ready(s, a) && IsId(recovery) && Reportable(result)
    ensures Accepts(s, Admit(a))
    ensures Accepts(Apply(s, Admit(a)), Attach(a.id, recovery))
    ensures Accepts(Apply(Apply(s, Admit(a)), Attach(a.id, recovery)), Finish(a.id, Applied, result))
    ensures Turn(s, a, recovery, result).rows == s.rows[a.id := Row(a, Applied, Some(recovery), Some(result))]
  {
    hide IsId, Admissible, Reportable, Busy;
  }

  lemma {:induction false} CanFinish(s: Store, id: string, recovery: string, result: Metadata)
    requires id in s.rows && s.rows[id].state.Prepared? && Reportable(result)
    ensures Accepts(s, Finish(id, Applied, result)) && Accepts(Apply(s, Attach(id, recovery)), Finish(id, Applied, result))
  {
    hide IsId, Reportable;
  }

  /** A mutation that ends APPLIED frees its volume: the next one can be admitted there. */
  lemma {:induction false} TurnFrees(s: Store, a: Admission, recovery: string, result: Metadata, b: Admission)
    requires Ready(s, a) && Ready(s, b) && a.id != b.id && a.volumeKey == b.volumeKey && IsId(recovery) && Reportable(result)
    ensures Ready(Turn(s, a, recovery, result), b)
  {
    TurnAccepted(s, a, recovery, result);
    hide IsId, Admissible, Reportable, Turn;
    var after := Turn(s, a, recovery, result).rows;
    forall id | id in after ensures !(Active(after[id]) && after[id].input.volumeKey == b.volumeKey) {
      if id != a.id { assert id in s.rows && after[id] == s.rows[id]; }
    }
  }

  // ----- the repository object -----

  datatype Admitted = Admitted(created: bool, row: Row)

  class Repository {
    var rows: map<string, Row>
    var events: seq<Event>

    function Contents(): Store
      reads this
    {
      Store(rows, events)
    }

    ghost predicate Valid()
      reads this
    {
      Sound(Contents())
    }

    constructor ()
      ensures Valid() && Contents() == EMPTY
    {
      rows, events := map[], [];
      new;
      EmptyIsSound();
    }

    /** Reading a row checks it again; on a reachable store the check never throws. */
    method Get(id: string) returns (r: Result<Option<Row>, string>)
      requires Valid()
      ensures r == if !IsId(id) then Err("rejected") else Ok(if id in rows then Some(rows[id]) else None)
    {
      if !IsId(id) { return Err("rejected"); }
      if id in rows {
        if !Readable(rows[id]) { return Err("rejected"); }
        return Ok(Some(rows[id]));
      }
      return Ok(None);
    }

    /** The insert as the database performs it: the unique index may refuse it. */
    method Insert(row: Row) returns (ok: bool)
      requires row.input.id !in rows
      modifies this`rows
      ensures ok <==> !(Active(row) && Busy(old(rows), row.input.volumeKey))
      ensures rows == if ok then old(rows)[row.input.id := row] else old(rows)
    {
      if Active(row) && Busy(rows, row.input.volumeKey) { return false; }
      rows := rows[row.input.id := row];
      return true;
    }

    method Admit(a: Admission) returns (r: Result<Admitted, string>)
      requires Valid()
      modifies this
      ensures Valid()
      ensures Contents() == Apply(old(Contents()), Op.Admit(a))
      ensures r.Ok? <==> Accepts(old(Contents()), Op.Admit(a))
      ensures r.Ok? ==> r.value == Admitted(a.id !in old(rows), rows[a.id])
    {
      StaysSound(Contents(), Op.Admit(a));
      if !Admissible(a) { return Err("rejected"); }
      var previous := Get(a.id);
      if previous.Err? { return Err("rejected"); }
      if previous.value.Some? {
        if previous.value.value.input != a { return Err("rejected"); }
        return Ok(Admitted(false, previous.value.value));
      }
      var ok := Insert(Opening(a));
      if !ok { return Err("rejected"); }
      events := events + [Event(a.id, Entered(Opening(a).state))];
      return Ok(Admitted(true, rows[a.id]));
    }

    method Finish(id: string, state: State, result: Metadata) returns (ok: bool)
      requires Valid()
      modifies this
      ensures Valid()
      ensures Contents() == Apply(old(Contents()), Op.Finish(id, state, result))
      ensures ok <==> Accepts(old(Contents()), Op.Finish(id, state, result))
    {
      StaysSound(Contents(), Op.Finish(id, state, result));
      if !(state.Applied? || state.Denied? || state.Unresolved?) || !Reportable(result) { return false; }
      var current := Get(id);
      if current.Err? || current.value.None? { return false; }
      var row := current.value.value;
      if !(row.state.Prepared? || row.state.Observing?) || (row.input.kind.Read? && state.Unresolved?) { return false; }
      rows := rows[id := row.(state := state, result := Some(result))];
      events := events + [Event(id, Entered(state))];
      return true;
    }

    method AttachRecovery(id: string, recovery: string) returns (ok: bool)
      requires Valid()
      modifies this
      ensures Valid()
      ensures Contents() == Apply(old(Contents()), Op.Attach(id, recovery))
      ensures ok <==> Accepts(old(Contents()), Op.Attach(id, recovery))
    {
      StaysSound(Contents(), Op.Attach(id, recovery));
      if !IsId(id) || !IsId(recovery) { return false; }
      var current := Get(id);
      if current.Err? || current.value.None? { return false; }
      var row := current.value.value;
      if !row.input.kind.Mutation? || !row.state.Prepared? || row.recoveryId.Some? { return false; }
      rows := rows[id := row.(recoveryId := Some(recovery))];
      events := events + [Event(id, RecoveryCaptured)];
      return true;
    }

    /** The events of one operation in order; folding them gives its state. */
    method Events(id: string) returns (marks: seq<Mark>)
      requires Valid()
      ensures marks == History(events, id)
      ensures Fold(marks) == StatusOf(Contents(), id)
    {
      marks := [];
      for i := 0 to |events|
        invariant marks == History(events[..i], id)
      {
        assert events[..i + 1] == events[..i] + [events[i]];
        HistoryGrows(events[..i], events[i], id);
        if events[i].id == id { marks := marks + [events[i].mark]; }
      }
      assert events[..|events|] == events;
    }
  }
}
