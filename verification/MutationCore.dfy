/** The core's mutation call as it is written, one call from admission to answer, shown to be a run of
    the interleaved protocol. */
module MutationCore {
  import opened Wrappers
  import opened Formats
  import opened Journal
  import opened Outcome
  import opened Mutation

  /** What the body of one operation meets: an error before the dispatch, or a dispatch. */
  datatype Attempt =
    | Stops(fault: Fault)
    | Goes(flight: Flight, relay: Relay, checks: Checks, after: Option<Fault>, result: Metadata)

  ghost predicate Realistic(t: Attempt, parse: string -> Option<Document>) {
    t.Goes? ==> Answerable(t.flight, t.relay, t.checks, parse) && t.after in {None, Some(PlainFault)}
  }

  /** What everybody else does while a call awaits something for the k-th time: calls, crashes and
      returns of other operations, and retries of this one. */
  type Others = (nat, World) -> seq<Step>

  predicate Aside(e: Step, id: string) {
    e.Call? || Subject(e) != id
  }

  ghost predicate Fair(others: Others, id: string, parse: string -> Option<Document>) {
    forall k, w :: Inv(w) ==>
      Possible(w, others(k, w), parse) && forall i :: 0 <= i < |others(k, w)| ==> Aside(others(k, w)[i], id)
  }

  lemma {:induction false} AsideKeeps(w: World, e: Step, id: string, parse: string -> Option<Document>)
    requires id in w.store.rows && Aside(e, id)
    ensures CaseOf(Next(w, e, parse), id) == CaseOf(w, id)
  {
    if Subject(e) != id {
      OthersUntouched(w, e, parse, id);
    }
  }

  lemma {:induction false} Longer(w: World, path: seq<Step>, e: Step, parse: string -> Option<Document>)
    requires Possible(w, path, parse) && Enabled(Run(w, path, parse), e, parse)
    ensures Possible(w, path + [e], parse)
    ensures Run(w, path + [e], parse) == Next(Run(w, path, parse), e, parse)
    decreases |path|
  {
    if path == [] {
      assert (path + [e])[1..] == [];
    } else {
      assert (path + [e])[1..] == path[1..] + [e];
      Longer(Next(w, path[0], parse), path[1..], e, parse);
    }
  }

  lemma {:induction false} Continued(w: World, path: seq<Step>, more: seq<Step>, parse: string -> Option<Document>)
    requires Possible(w, path, parse) && Possible(Run(w, path, parse), more, parse)
    ensures Possible(w, path + more, parse)
    ensures Run(w, path + more, parse) == Run(Run(w, path, parse), more, parse)
    decreases |path|
  {
    if path == [] {
      assert path + more == more;
    } else {
      assert (path + more)[1..] == path[1..] + more;
      Continued(Next(w, path[0], parse), path[1..], more, parse);
    }
  }

  /** One step more. */
  lemma {:induction false} Extend(w: World, path: seq<Step>, v: World, e: Step, parse: string -> Option<Document>)
    requires Possible(w, path, parse) && v == Run(w, path, parse) && Inv(v) && Enabled(v, e, parse)
    ensures Possible(w, path + [e], parse) && Run(w, path + [e], parse) == Next(v, e, parse) && Inv(Next(v, e, parse))
  {
    hide *;
    Longer(w, path, e, parse);
    StepKeepsInv(v, e, parse);
  }

  /** The state of the row behind an answer. */
  function StateFor(answer: Answer): State {
    match answer
    case AnswerApplied => State.Applied
    case AnswerDenied => State.Denied
    case NeedsReconciliation => Unresolved
  }

  /** One row ends in this state, and nothing else changes. */
  ghost predicate Settles(before: map<string, Row>, after: map<string, Row>, id: string, state: State) {
    id in before && exists r :: after == before[id := before[id].(state := state, result := Some(r))]
  }

  lemma {:induction false} FinishSettles(s: Store, id: string, state: State, result: Metadata)
    requires id in s.rows && s.rows[id].state.Prepared? && (state.Applied? || state.Denied? || state.Unresolved?)
    ensures Accepts(s, Op.Finish(id, state, result)) <==> Reportable(result)
    ensures Reportable(result) ==> Settles(s.rows, Apply(s, Op.Finish(id, state, result)).rows, id, state)
    ensures Reportable(NOTHING)
  {
    hide IsDigest, IsId;
  }

  /** Once the only active mutation of a volume is finished, the volume is busy exactly if it ended unresolved. */
  lemma {:induction false} FreedUnlessUnresolved(s: Store, id: string, state: State, result: Option<Metadata>)
    requires Sound(s) && id in s.rows && s.rows[id].state.Prepared? && (state.Applied? || state.Denied? || state.Unresolved?)
    ensures var volume := s.rows[id].input.volumeKey;
            Busy(s.rows[id := s.rows[id].(state := state, result := result)], volume) <==> state.Unresolved?
  {
    var volume := s.rows[id].input.volumeKey;
    var after := s.rows[id := s.rows[id].(state := state, result := result)];
    assert Readable(s.rows[id]);
    assert Active(s.rows[id]);
    if state.Unresolved? {
      assert id in after && Active(after[id]) && after[id].input.volumeKey == volume;
    }
    hide Readable;
  }

  /** What an answer adds to the record of answers. */
  function Said(id: string, answer: Option<Answer>): seq<Told> {
    if answer.Some? then [Told(id, answer.value)] else []
  }

  class Core {
    const journal: Repository

    constructor (journal: Repository)
      ensures this.journal == journal
    {
      this.journal := journal;
    }

    /** One transaction against the journal, which may fail or lose its answer. */
    method Record(id: string, state: State, result: Metadata, commit: Commit) returns (ok: bool)
      requires journal.Valid()
      modifies journal
      ensures journal.Valid()
      ensures ok <==> commit.Works? && Accepts(old(journal.Contents()), Op.Finish(id, state, result))
      ensures journal.Contents() ==
              if commit.Fails? then old(journal.Contents()) else Apply(old(journal.Contents()), Op.Finish(id, state, result))
    {
      if commit.Fails? { return false; }
      ok := journal.Finish(id, state, result);
      ok := ok && commit.Works?;
    }

    /** Where a call stands: the protocol's state, and the steps that led to it from `w`. */
    ghost predicate Along(w: World, path: seq<Step>, v: World, parse: string -> Option<Document>)
      reads journal
    {
      journal.Valid() && v.store == journal.Contents() && Inv(v) && Possible(w, path, parse) && v == Run(w, path, parse)
    }

    /** The transaction of one step of somebody else. */
    method Elsewhere(w: World, e: Step, parse: string -> Option<Document>)
      requires journal.Valid() && w.store == journal.Contents()
      modifies journal
      ensures journal.Valid() && journal.Contents() == Next(w, e, parse).store
    {
      StoreMoves(w, e, parse);
      hide Next, Sound, Apply, Accepts;
      var ops := Written(w, e);
      if ops != [] {
        assert ops[1..] == [];
        match ops[0] {
          case Admit(a) => var _ := journal.Admit(a);
          case Finish(id, state, result) => var _ := journal.Finish(id, state, result);
          case Attach(id, recovery) => var _ := journal.AttachRecovery(id, recovery);
        }
      }
    }

    method Perform(steps: seq<Step>, id: string, w: World, parse: string -> Option<Document>) returns (v: World)
      requires journal.Valid() && w.store == journal.Contents() && Inv(w) && id in w.store.rows && Possible(w, steps, parse)
      requires forall i :: 0 <= i < |steps| ==> Aside(steps[i], id)
      modifies journal
      ensures Along(w, steps, v, parse) && CaseOf(v, id) == CaseOf(w, id)
      decreases |steps|
    {
      hide Next, Enabled, Inv, Aside, Sound;
      v := w;
      if steps != [] {
        AsideKeeps(w, steps[0], id, parse);
        StepKeepsInv(w, steps[0], parse);
        Elsewhere(w, steps[0], parse);
        v := Perform(steps[1..], id, Next(w, steps[0], parse), parse);
      }
    }

    /** An await: others take their steps, and none of them touches this operation. */
    method Await(k: nat, id: string, w: World, others: Others, parse: string -> Option<Document>)
      returns (v: World, ghost path: seq<Step>)
      requires journal.Valid() && w.store == journal.Contents() && Inv(w) && id in w.store.rows && Fair(others, id, parse)
      modifies journal
      ensures Along(w, path, v, parse) && CaseOf(v, id) == CaseOf(w, id)
    {
      hide Inv, Possible, Aside, Run, Sound;
      path := others(k, w);
      v := Perform(others(k, w), id, w, parse);
    }

    /** The body of an operation: capture a preimage, hand the operation down, judge the verdict. */
    method Attempted(id: string, recovery: Option<string>, t: Attempt, w: World, others: Others, parse: string -> Option<Document>)
      returns (dispatched: bool, fault: Option<Fault>, result: Metadata, v: World, ghost path: seq<Step>)
      requires journal.Valid() && w.store == journal.Contents() && Inv(w) && Realistic(t, parse) && Fair(others, id, parse)
      requires id in w.store.rows && id in w.phases && w.phases[id].Running? && id !in w.flights
      requires w.store.rows[id].state.Prepared? && w.store.rows[id].recoveryId.None?
      modifies journal
      ensures Along(w, path, v, parse)
      ensures fault.None? ==> dispatched
      ensures dispatched <==> t.Goes? && (recovery.Some? ==> IsId(recovery.value))
      ensures dispatched ==> && (fault.None? <==> Stack(t.flight, t.relay, t.checks, parse).Replied? && t.after.None?)
                             && (fault == Some(DeniedFault) <==> Stack(t.flight, t.relay, t.checks, parse) == NativeDenied)
      ensures fault.None? ==> result == t.result
      ensures id in v.store.rows && v.store.rows[id].state.Prepared? && v.store.rows[id].input == w.store.rows[id].input
      ensures id in v.phases && v.phases[id] == if fault.None? then Settling(State.Applied, result)
                                                else Settling(Classify(dispatched, fault.value), NOTHING)
    {
      hide Inv, Possible, Run, Fair, Sound, Answerable;
      dispatched, fault, result := false, None, NOTHING;
      v, path := Await(0, id, w, others, parse);
      if recovery.Some? {
        var attached := journal.AttachRecovery(id, recovery.value);
        Extend(w, path, v, Capture(id, recovery.value), parse);
        path := path + [Capture(id, recovery.value)];
        v := Next(v, Capture(id, recovery.value), parse);
        if !attached {
          return false, Some(PlainFault), NOTHING, v, path;
        }
      }
      match t
      case Stops(f) =>
        Extend(w, path, v, GiveUp(id, f), parse);
        path := path + [GiveUp(id, f)];
        v := Next(v, GiveUp(id, f), parse);
        fault := Some(f);
      case Goes(flight, relay, checks, after, metadata) =>
        dispatched := true;
        InRows(v, id);
        var u := v;
        ghost var more;
        fault, result, v, more := Native(id, flight, relay, checks, after, metadata, u, others, parse);
        Continued(w, path, more, parse);
        path := path + more;
    }

    /** From the dispatch to the verdict. */
    method Native(id: string, flight: Flight, relay: Relay, checks: Checks, after: Option<Fault>, metadata: Metadata,
                  w: World, others: Others, parse: string -> Option<Document>)
      returns (fault: Option<Fault>, result: Metadata, v: World, ghost path: seq<Step>)
      requires journal.Valid() && w.store == journal.Contents() && Inv(w) && Fair(others, id, parse)
      requires Answerable(flight, relay, checks, parse) && after in {None, Some(PlainFault)}
      requires id in w.store.rows && id in w.phases && w.phases[id].Running?
      modifies journal
      ensures Along(w, path, v, parse)
      ensures id in v.store.rows && v.store.rows[id] == w.store.rows[id]
      ensures fault.None? <==> Stack(flight, relay, checks, parse).Replied? && after.None?
      ensures fault == Some(DeniedFault) <==> Stack(flight, relay, checks, parse) == NativeDenied
      ensures fault.None? ==> result == metadata
      ensures id in v.phases && v.phases[id] == if fault.None? then Settling(State.Applied, result)
                                                else Settling(Classify(true, fault.value), NOTHING)
    {
      hide Inv, Possible, Run, Fair, Sound, Answerable, Stack;
      assert flight.Landed? ==> Honest(flight.script) by { Truthful(flight, relay, checks, parse); }
      var u, x;
      ghost var first, more;
      u, first := Descend(id, flight, w, others, parse);
      x, more := Await(2, id, u, others, parse);
      Continued(w, first, more, parse);
      path := first + more;
      assert x.flights[id] == flight;
      var verdict := Stack(flight, relay, checks, parse);
      Extend(w, path, x, Return(id, relay, checks, after, metadata), parse);
      path := path + [Return(id, relay, checks, after, metadata)];
      v := Next(x, Return(id, relay, checks, after, metadata), parse);
      fault, result := None, NOTHING;
      if !verdict.Replied? {
        fault := Some(FaultOf(verdict));
      } else if after.Some? {
        fault := after;
      } else {
        result := metadata;
      }
    }

    /** The native operation: handed down, perhaps launched, perhaps landed before its caller hears of it. */
    method Descend(id: string, flight: Flight, w: World, others: Others, parse: string -> Option<Document>)
      returns (v: World, ghost path: seq<Step>)
      requires journal.Valid() && w.store == journal.Contents() && Inv(w) && Fair(others, id, parse)
      requires flight.Landed? ==> Honest(flight.script)
      requires id in w.store.rows && id in w.phases && w.phases[id].Running?
      modifies journal
      ensures Along(w, path, v, parse)
      ensures id in v.store.rows && id in v.phases && v.phases[id].Dispatched? && id in v.flights && v.flights[id] == flight
      ensures v.store.rows[id] == w.store.rows[id]
    {
      hide Inv, Fair, Sound, Run, Possible;
      NoSteps(w, parse);
      Extend(w, [], w, Dispatch(id), parse);
      path := [] + [Dispatch(id)];
      v := Next(w, Dispatch(id), parse);
      if !flight.Grounded? {
        Extend(w, path, v, Launch(id), parse);
        path := path + [Launch(id)];
        v := Next(v, Launch(id), parse);
      }
      var u := v;
      ghost var more;
      v, more := Await(1, id, u, others, parse);
      Continued(w, path, more, parse);
      path := path + more;
      if flight.Landed? {
        Extend(w, path, v, Land(id, flight.script), parse);
        path := path + [Land(id, flight.script)];
        v := Next(v, Land(id, flight.script), parse);
      }
    }

    /** The handler of an error: the outcome is recorded only while the row is still PREPARED. */
    method Refuse(id: string, state: State, commit: Commit, ghost w: World, parse: string -> Option<Document>)
      returns (answer: Option<Answer>)
      requires journal.Valid() && w.store == journal.Contents()
      requires id in w.phases && w.phases[id] == Settling(state, NOTHING) && (state.Denied? || state.Unresolved?) && IsId(id)
      modifies journal
      ensures journal.Valid()
      ensures Next(w, Settle(id, commit), parse).store == journal.Contents()
      ensures Next(w, Settle(id, commit), parse).answers == w.answers + (if answer.Some? then [Told(id, answer.value)] else [])
      ensures id in w.store.rows && w.store.rows[id].state.Prepared? && commit.Works? ==>
                && answer == Some(if state.Unresolved? then NeedsReconciliation else AnswerDenied)
                && Settles(w.store.rows, journal.rows, id, state)
    {
      hide Settles;
      if id in w.store.rows && w.store.rows[id].state.Prepared? { FinishSettles(w.store, id, state, NOTHING); }
      var current := journal.Get(id);
      if current.Err? { return None; }
      if current.value.Some? && current.value.value.state.Prepared? {
        var told := Record(id, state, NOTHING, commit);
        if !told { return None; }
      }
      answer := Some(if state.Unresolved? then NeedsReconciliation else AnswerDenied);
    }

    /** From the end of the body to the answer. */
    method Conclude(id: string, dispatched: bool, fault: Option<Fault>, result: Metadata, first: Commit, second: Commit,
                    ghost w: World, parse: string -> Option<Document>)
      returns (answer: Option<Answer>, ghost path: seq<Step>)
      requires journal.Valid() && w.store == journal.Contents()
      requires IsId(id) && id in w.phases && id in w.store.rows
      requires w.phases[id] == if fault.None? then Settling(State.Applied, result)
                               else Settling(Classify(dispatched, fault.value), NOTHING)
      requires fault.None? ==> dispatched
      modifies journal
      ensures journal.Valid() && Possible(w, path, parse)
      ensures Run(w, path, parse).store == journal.Contents()
      ensures Run(w, path, parse).answers == w.answers + (if answer.Some? then [Told(id, answer.value)] else [])
      ensures w.store.rows[id].state.Prepared? && first.Works? && second.Works? ==>
                && answer == Some(if fault.None? && Reportable(result) then AnswerApplied
                                  else if !dispatched || fault == Some(DeniedFault) then AnswerDenied
                                  else NeedsReconciliation)
                && Settles(w.store.rows, journal.rows, id, StateFor(answer.value))
    {
      hide Settles, Reportable, Run, Possible, Sound, Inv;
      answer, path := None, [];
      NoSteps(w, parse);
      ghost var v := w;
      if w.store.rows[id].state.Prepared? { FinishSettles(w.store, id, State.Applied, result); }
      var last := fault;
      if fault.None? {
        var told := Record(id, State.Applied, result, first);
        Longer(w, path, Settle(id, first), parse);
        path := path + [Settle(id, first)];
        v := Next(v, Settle(id, first), parse);
        if told {
          return Some(AnswerApplied), path;
        }
        last := Some(PlainFault);
      }
      answer := Refuse(id, Classify(dispatched, last.value), second, v, parse);
      Longer(w, path, Settle(id, second), parse);
      path := path + [Settle(id, second)];
    }

    /** One mutation call. None is an error thrown at the caller. Whatever others do while it awaits,
        every answer and every journal entry is one the interleaved protocol allows. */
    method Mutate(a: Admission, writable: bool, recovery: Option<string>, t: Attempt, first: Commit, second: Commit,
                  w: World, others: Others, parse: string -> Option<Document>)
      returns (answer: Option<Answer>, ghost path: seq<Step>)
      requires journal.Valid() && Inv(w) && w.store == journal.Contents()
      requires a.kind.Mutation? && Realistic(t, parse) && Fair(others, a.id, parse)
      modifies journal
      ensures journal.Valid() && Possible(w, path, parse)
      ensures Run(w, path, parse).store == journal.Contents()
      ensures answer.Some? ==> var told := Run(w, path, parse).answers; told != [] && told[|told| - 1] == Told(a.id, answer.value)
      ensures !writable || !Accepts(old(journal.Contents()), Op.Admit(a)) ==>
                answer.None? && journal.Contents() == old(journal.Contents())
      ensures a.id in old(journal.rows) ==> journal.Contents() == old(journal.Contents())
      ensures writable && a.id in old(journal.rows) && Accepts(old(journal.Contents()), Op.Admit(a)) ==>
                var known := old(journal.rows)[a.id].state;
                answer == Some(if known.Applied? then AnswerApplied
                               else if known.Prepared? || known.Unresolved? then NeedsReconciliation else AnswerDenied)
      ensures writable && a.id !in old(journal.rows) && Accepts(old(journal.Contents()), Op.Admit(a)) && first.Works? && second.Works? ==>
                && a.id in journal.rows && journal.rows[a.id].input == a
                && if Refused(recovery, t) then
                     answer == Some(AnswerDenied) && journal.rows[a.id].state.Denied? && !Busy(journal.rows, a.volumeKey)
                   else if Done(recovery, t) then
                     answer == Some(AnswerApplied) && journal.rows[a.id].state.Applied? && !Busy(journal.rows, a.volumeKey)
                   else
                     answer == Some(NeedsReconciliation) && journal.rows[a.id].state.Unresolved? && Busy(journal.rows, a.volumeKey)
    {
      answer, path := None, [];
      if !writable { return; }
      NoSteps(w, parse);
      Longer(w, [], Call(a), parse);
      var admitted := journal.Admit(a);
      if admitted.Err? { return; }
      path := [] + [Call(a)];
      if !admitted.value.created {
        return Some(Replay(admitted.value.row.state)), path;
      }
      answer, path := Admitted(a, recovery, t, first, second, w, others, parse);
    }

    /** The body stopped before the native operation was handed down, or the operation was not launched, or
        the helper's no-change receipt came through. */
    predicate Refused(recovery: Option<string>, t: Attempt) {
      || t.Stops? || (recovery.Some? && !IsId(recovery.value))
      || !t.checks.guarded || !t.checks.admissible || !t.checks.launchable
      || (&& t.flight.Landed? && t.relay.code == Some(1) && Ending(t.flight.script).printed == Some(Refusal("DENIED_NO_CHANGE"))
          && |Output(t.relay.signals)| <= 0x40_0000 && forall i :: 0 <= i < |t.relay.signals| ==> t.relay.signals[i].Stdout?)
    }

    /** A clean reply came through and passed every check, the work after it succeeded, and there is
        something to report that the journal takes. */
    predicate Done(recovery: Option<string>, t: Attempt) {
      && t.Goes? && (recovery.Some? ==> IsId(recovery.value))
      && t.checks.guarded && t.checks.admissible && t.checks.launchable
      && t.relay.code == Some(0)
      && |Output(t.relay.signals)| <= 0x40_0000 && (forall i :: 0 <= i < |t.relay.signals| ==> t.relay.signals[i].Stdout?)
      && t.checks.accepted && t.checks.pinned && t.checks.expected && t.after.None? && Reportable(t.result)
    }

    lemma {:induction false} StopsIff(recovery: Option<string>, t: Attempt)
      requires t.Stops? || (recovery.Some? && !IsId(recovery.value))
      ensures Refused(recovery, t)
    {
    }

    lemma {:induction false} VerdictsIff(recovery: Option<string>, t: Attempt, parse: string -> Option<Document>)
      requires Realistic(t, parse) && t.Goes? && (recovery.Some? ==> IsId(recovery.value))
      ensures Stack(t.flight, t.relay, t.checks, parse) == NativeDenied <==> Refused(recovery, t)
      ensures Stack(t.flight, t.relay, t.checks, parse).Replied? && t.after.None? && Reportable(t.result) <==> Done(recovery, t)
    {
      DeniedIff(t.flight, t.relay, t.checks, parse);
      RepliedIff(t.flight, t.relay, t.checks, parse);
      hide Stack, Answerable, IsId, Reportable, Ending;
      assert NO_CHANGE == "DENIED_NO_CHANGE" && OUTPUT_LIMIT == 0x40_0000;
    }

    /** A call whose row is new. */
    method Admitted(a: Admission, recovery: Option<string>, t: Attempt, first: Commit, second: Commit,
                    w: World, others: Others, parse: string -> Option<Document>)
      returns (answer: Option<Answer>, ghost path: seq<Step>)
      requires Inv(w) && Accepts(w.store, Op.Admit(a)) && a.id !in w.store.rows
      requires journal.Valid() && Next(w, Call(a), parse).store == journal.Contents()
      requires a.kind.Mutation? && Realistic(t, parse) && Fair(others, a.id, parse)
      modifies journal
      ensures journal.Valid() && Possible(w, path, parse)
      ensures Run(w, path, parse).store == journal.Contents()
      ensures answer.Some? ==> var told := Run(w, path, parse).answers; told != [] && told[|told| - 1] == Told(a.id, answer.value)
      ensures first.Works? && second.Works? ==>
                && answer == Some(if Refused(recovery, t) then AnswerDenied else if Done(recovery, t) then AnswerApplied
                                  else NeedsReconciliation)
                && a.id in journal.rows && journal.rows[a.id].input == a && journal.rows[a.id].state == StateFor(answer.value)
                && (Busy(journal.rows, a.volumeKey) <==> answer == Some(NeedsReconciliation))
    {
      assert Fits(CaseOf(w, a.id)) && IsId(a.id);
      hide Inv, Fair, Sound, Possible, Run, Refused, Done, Busy, Reportable, Realistic, IsId;
      NoSteps(w, parse);
      Extend(w, [], w, Call(a), parse);
      var v := Next(w, Call(a), parse);
      ghost var called := [] + [Call(a)];
      ghost var more;
      answer, more := Carried(a, recovery, t, first, second, v, others, parse);
      Continued(w, called, more, parse);
      path := called + more;
    }

    /** From the admission to the answer. */
    method Carried(a: Admission, recovery: Option<string>, t: Attempt, first: Commit, second: Commit,
                   v: World, others: Others, parse: string -> Option<Document>)
      returns (answer: Option<Answer>, ghost path: seq<Step>)
      requires journal.Valid() && v.store == journal.Contents() && Inv(v)
      requires a.id in v.store.rows && v.store.rows[a.id] == Row(a, Prepared, None, None) && IsId(a.id)
      requires a.id in v.phases && v.phases[a.id].Running? && a.id !in v.flights
      requires Realistic(t, parse) && Fair(others, a.id, parse)
      modifies journal
      ensures journal.Valid() && Possible(v, path, parse)
      ensures Run(v, path, parse).store == journal.Contents()
      ensures answer.Some? ==> var told := Run(v, path, parse).answers; told != [] && told[|told| - 1] == Told(a.id, answer.value)
      ensures first.Works? && second.Works? ==>
                && answer == Some(if Refused(recovery, t) then AnswerDenied else if Done(recovery, t) then AnswerApplied
                                  else NeedsReconciliation)
                && a.id in journal.rows && journal.rows[a.id].input == a && journal.rows[a.id].state == StateFor(answer.value)
                && (Busy(journal.rows, a.volumeKey) <==> answer == Some(NeedsReconciliation))
    {
      hide Inv, Fair, Sound, Possible, Run, Apply, Refused, Done, Stack, Busy, Reportable, Settles, Realistic, IsId, Classify;
      var dispatched, fault, result, u, x;
      ghost var body, pause, finale;
      dispatched, fault, result, u, body := Attempted(a.id, recovery, t, v, others, parse);
      InRows(u, a.id);
      x, pause := Await(3, a.id, u, others, parse);
      answer, finale := Conclude(a.id, dispatched, fault, result, first, second, x, parse);
      if t.Goes? && (recovery.Some? ==> IsId(recovery.value)) { VerdictsIff(recovery, t, parse); } else { StopsIff(recovery, t); }
      if first.Works? && second.Works? { Freed(x, a.id, StateFor(answer.value), journal.rows); }
      Continued(u, pause, finale, parse);
      Continued(v, body, pause + finale, parse);
      path := body + (pause + finale);
    }
  }

  lemma {:induction false} Freed(w: World, id: string, state: State, rows: map<string, Row>)
    requires Inv(w) && id in w.store.rows && w.store.rows[id].state.Prepared? && (state.Applied? || state.Denied? || state.Unresolved?)
    requires Settles(w.store.rows, rows, id, state)
    ensures id in rows && rows[id].input == w.store.rows[id].input && rows[id].state == state
    ensures Busy(rows, w.store.rows[id].input.volumeKey) <==> state.Unresolved?
  {
    hide Sound, Busy, Fits, Once, AnswersHold;
    var r :| rows == w.store.rows[id := w.store.rows[id].(state := state, result := Some(r))];
    FreedUnlessUnresolved(w.store, id, state, Some(r));
  }

  lemma {:induction false} Truthful(f: Flight, r: Relay, c: Checks, parse: string -> Option<Document>)
    requires Answerable(f, r, c, parse)
    ensures f.Landed? ==> Honest(f.script)
  {
  }

  lemma {:induction false} NoSteps(w: World, parse: string -> Option<Document>)
    ensures Possible(w, [], parse) && Run(w, [], parse) == w
  {
  }

  lemma {:induction false} InRows(w: World, id: string)
    requires Inv(w) && id in w.phases
    ensures id in w.store.rows
  {
    assert Fits(CaseOf(w, id));
  }
}
