/** The owner-workspace mutation protocol as interleaved steps: any number of calls, the journal they
    share, the native operations they launch, crashes of the controller between any two steps, and
    retries under the same request id. */
module Mutation {
  import opened Wrappers
  import opened Journal
  import opened Outcome

  /** How far the call that admitted a mutation has come. */
  datatype Phase =
    | Running                     // admitted; reads, consent and capture happen here
    | Dispatched                  // the native operation was handed down
    | Settling(state: State, result: Metadata)  // the outcome is known, the journal is not yet told
    | Ended                       // answered, or lost in a crash

  datatype Answer = AnswerApplied | AnswerDenied | NeedsReconciliation

  datatype Told = Told(id: string, answer: Answer)

  datatype World = World(store: Store, phases: map<string, Phase>, flights: map<string, Flight>,
                         dispatches: seq<string>, answers: seq<Told>)

  const START := World(EMPTY, map[], map[], [], [])

  /** What a retry under a known id is told. */
  function Replay(s: State): Answer {
    match s
    case Applied => AnswerApplied
    case Prepared => NeedsReconciliation
    case Unresolved => NeedsReconciliation
    case _ => AnswerDenied
  }

  datatype Fault = PlainFault | DeniedFault | UnresolvedFault

  /** The state an error leaves: only a native denial, or an error before the dispatch, is a denial. */
  function Classify(dispatched: bool, fault: Fault): State {
    if dispatched && !fault.DeniedFault? then Unresolved else State.Denied
  }

  function FaultOf(v: Verdict): Fault
    requires !v.Replied?
  {
    match v
    case NativeDenied => DeniedFault
    case NativeUnresolved => UnresolvedFault
    case Failed => PlainFault
  }

  /** What the call makes of the verdict; the work after a good reply may still fail. */
  function Judge(v: Verdict, after: Option<Fault>, result: Metadata): Phase {
    if !v.Replied? then Settling(Classify(true, FaultOf(v)), NOTHING)
    else if after.None? then Settling(State.Applied, result)
    else Settling(Classify(true, after.value), NOTHING)
  }

  /** Exactly when a change that happened, or still may, would be recorded as a denial: only if the
      work after a good reply raised a native denial. That work computes digests and previews, and
      raises plain errors. */
  lemma {:induction false} MisjudgedIff(f: Flight, r: Relay, c: Checks, parse: string -> Option<Document>,
                                        after: Option<Fault>, result: Metadata)
    requires Answerable(f, r, c, parse) && MayChange(f)
    ensures Judge(Stack(f, r, c, parse), after, result).state == State.Denied
            <==> Stack(f, r, c, parse).Replied? && after == Some(DeniedFault)
  {
    ChangeIsNeverDenied(f, r, c, parse);
  }

  /** How a journal transaction can go wrong: refused or failed, or committed but reported as failed. */
  datatype Commit = Works | Fails | WorksUnheard

  datatype Step =
    | Call(input: Admission)
    | Observe(op: Op)
    | Capture(id: string, recovery: string)
    | GiveUp(id: string, fault: Fault)
    | Dispatch(id: string)
    | Launch(id: string)
    | Land(id: string, script: Script)
    | Return(id: string, relay: Relay, checks: Checks, after: Option<Fault>, result: Metadata)
    | Settle(id: string, commit: Commit)
    | Crash(id: string)

  ghost predicate Enabled(w: World, e: Step, parse: string -> Option<Document>) {
    match e
    case Call(a) => a.kind.Mutation?
    case Observe(op) =>
      (op.Admit? && op.input.kind.Read?) || (op.Finish? && op.id in w.store.rows && w.store.rows[op.id].input.kind.Read?)
    case Capture(id, _) => id in w.phases && w.phases[id].Running?
    case GiveUp(id, _) => id in w.phases && w.phases[id].Running?
    case Dispatch(id) => id in w.phases && w.phases[id].Running?
    case Launch(id) => id in w.phases && w.phases[id].Dispatched? && id in w.flights && w.flights[id].Grounded?
    case Land(id, s) => id in w.flights && w.flights[id].Aloft? && Honest(s)
    case Return(id, r, c, after, _) =>
      && after in {None, Some(PlainFault)}
      && id in w.phases && w.phases[id].Dispatched? && id in w.flights
      && Answerable(w.flights[id], r, c, parse)
    case Settle(id, _) => id in w.phases && w.phases[id].Settling?
    case Crash(id) => id in w.phases
  }

  function Answered(w: World, id: string, a: Answer): World {
    w.(phases := w.phases[id := Ended], answers := w.answers + [Told(id, a)])
  }

  /** Telling the journal the outcome. A failed APPLIED is retried as UNRESOLVED; a denial or an
      unresolved outcome is recorded only while the row is still PREPARED. */
  function Settled(w: World, id: string, state: State, result: Metadata, commit: Commit): World
  {
    var recorded := Apply(w.store, Finish(id, state, result));
    var works := Accepts(w.store, Finish(id, state, result)) && commit.Works?;
    var store := if commit.Fails? then w.store else recorded;
    if state.Applied? then
      if works then Answered(w.(store := store), id, AnswerApplied)
      else w.(store := store, phases := w.phases[id := Settling(Unresolved, NOTHING)])
    else
      var answer := if state.Unresolved? then NeedsReconciliation else AnswerDenied;
      if id !in w.store.rows || !w.store.rows[id].state.Prepared? then Answered(w, id, answer)
      else if works then Answered(w.(store := store), id, answer)
      else w.(store := store, phases := w.phases[id := Ended])
  }

  function Next(w: World, e: Step, parse: string -> Option<Document>): World {
    match e
    case Call(a) =>
      if !Accepts(w.store, Admit(a)) then w
      else if a.id in w.store.rows then w.(answers := w.answers + [Told(a.id, Replay(w.store.rows[a.id].state))])
      else w.(store := Apply(w.store, Admit(a)), phases := w.phases[a.id := Running])
    case Observe(op) => w.(store := Apply(w.store, op))
    case Capture(id, recovery) =>
      if Accepts(w.store, Attach(id, recovery)) then w.(store := Apply(w.store, Attach(id, recovery)))
      else w.(phases := w.phases[id := Settling(Classify(false, PlainFault), NOTHING)])
    case GiveUp(id, fault) => w.(phases := w.phases[id := Settling(Classify(false, fault), NOTHING)])
    case Dispatch(id) =>
      w.(phases := w.phases[id := Dispatched], flights := w.flights[id := Grounded], dispatches := w.dispatches + [id])
    case Launch(id) => w.(flights := w.flights[id := Aloft])
    case Land(id, s) => w.(flights := w.flights[id := Landed(s)])
    case Return(id, r, c, after, result) =>
      if id in w.flights then w.(phases := w.phases[id := Judge(Stack(w.flights[id], r, c, parse), after, result)]) else w
    case Settle(id, commit) =>
      if id in w.phases && w.phases[id].Settling?
      then Settled(w, id, w.phases[id].state, w.phases[id].result, commit) else w
    case Crash(id) => w.(phases := w.phases[id := Ended])
  }

  function Run(w: World, steps: seq<Step>, parse: string -> Option<Document>): World
    decreases |steps|
  {
    if steps == [] then w else Run(Next(w, steps[0], parse), steps[1..], parse)
  }

  ghost predicate Possible(w: World, steps: seq<Step>, parse: string -> Option<Document>)
    decreases |steps|
  {
    steps == [] || (Enabled(w, steps[0], parse) && Possible(Next(w, steps[0], parse), steps[1..], parse))
  }

  // ----- the invariant, one request id at a time -----

  datatype Case = Case(row: Option<Row>, phase: Option<Phase>, flight: Option<Flight>)

  function Look<T>(m: map<string, T>, id: string): Option<T> {
    if id in m then Some(m[id]) else None
  }

  function CaseOf(w: World, id: string): Case {
    Case(Look(w.store.rows, id), Look(w.phases, id), Look(w.flights, id))
  }

  /** The native operation never started, or ended without a change. */
  predicate Harmless(f: Option<Flight>) {
    f.None? || !MayChange(f.value)
  }

  predicate OnDisk(f: Option<Flight>) {
    f.Some? && f.value.Landed? && f.value.script.committed
  }

  predicate PhaseFits(state: State, p: Phase, f: Option<Flight>) {
    match p
    case Running => state.Prepared? && f.None?
    case Dispatched => state.Prepared? && f.Some?
    case Settling(Denied, _) => state.Prepared? && Harmless(f)
    case Settling(Applied, _) => state.Prepared? && OnDisk(f)
    case Settling(Unresolved, _) => (state.Prepared? || state.Applied?) && f.Some?
    case Settling(_, _) => false
    case Ended => true
  }

  predicate Fits(c: Case) {
    if c.phase.None? then c.flight.None? && (c.row.Some? ==> c.row.value.input.kind.Read?)
    else
      && c.row.Some? && c.row.value.input.kind.Mutation?
      && PhaseFits(c.row.value.state, c.phase.value, c.flight)
      && (c.row.value.state.Applied? ==> OnDisk(c.flight))
      && (c.row.value.state.Denied? ==> Harmless(c.flight))
      && (c.row.value.state.Unresolved? ==> c.flight.Some?)
  }

  /** No id is dispatched twice. */
  ghost predicate Once(w: World) {
    && (forall i, j :: 0 <= i < j < |w.dispatches| ==> w.dispatches[i] != w.dispatches[j])
    && (forall id :: id in w.dispatches <==> id in w.flights)
  }

  /** Every answer given is still what the journal says. */
  predicate AnswersHold(w: World) {
    forall k :: 0 <= k < |w.answers| ==> AnswerHolds(w, w.answers[k].id, w.answers[k].answer)
  }

  predicate AnswerHolds(w: World, id: string, a: Answer) {
    && id in w.store.rows && w.store.rows[id].input.kind.Mutation?
    && (a.AnswerApplied? ==> w.store.rows[id].state.Applied?)
    && (a.AnswerDenied? ==> w.store.rows[id].state.Denied?)
  }

  ghost predicate Inv(w: World) {
    && Sound(w.store)
    && (forall id :: Fits(CaseOf(w, id)))
    && Once(w)
    && AnswersHold(w)
  }

  // ----- each step keeps it -----

  function Subject(e: Step): string {
    match e
    case Call(a) => a.id
    case Observe(Admit(a)) => a.id
    case Observe(Finish(id, _, _)) => id
    case Observe(Attach(id, _)) => id
    case Capture(id, _) => id
    case GiveUp(id, _) => id
    case Dispatch(id) => id
    case Launch(id) => id
    case Land(id, _) => id
    case Return(id, _, _, _, _) => id
    case Settle(id, _) => id
    case Crash(id) => id
  }

  lemma {:induction false} OthersUntouched(w: World, e: Step, parse: string -> Option<Document>, id: string)
    requires id != Subject(e)
    ensures CaseOf(Next(w, e, parse), id) == CaseOf(w, id)
  {
  }

  lemma {:induction false} SubjectFits(w: World, e: Step, parse: string -> Option<Document>)
    requires Fits(CaseOf(w, Subject(e))) && Enabled(w, e, parse)
    ensures Fits(CaseOf(Next(w, e, parse), Subject(e)))
  {
    match e
    case Settle(id, commit) => SettledFits(w, id, commit);
    case Return(id, _, _, _, _) => VerdictFits(w.flights[id], e, parse);
    case Observe(op) =>
    case _ =>
  }

  lemma {:induction false} SettledFits(w: World, id: string, commit: Commit)
    requires Fits(CaseOf(w, id)) && id in w.phases && w.phases[id].Settling?
    ensures Fits(CaseOf(Settled(w, id, w.phases[id].state, w.phases[id].result, commit), id))
  {
  }

  /** The step where the five layers meet the journal. */
  lemma {:induction false} VerdictFits(f: Flight, e: Step, parse: string -> Option<Document>)
    requires e.Return? && Answerable(f, e.relay, e.checks, parse) && e.after in {None, Some(PlainFault)}
    ensures PhaseFits(Prepared, Judge(Stack(f, e.relay, e.checks, parse), e.after, e.result), Some(f))
  {
    if MayChange(f) { ChangeIsNeverDenied(f, e.relay, e.checks, parse); }
    if Stack(f, e.relay, e.checks, parse).Replied? { ReplyMeansCommitted(f, e.relay, e.checks, parse); }
  }

  /** The journal transactions a step may have performed: at most one. */
  function Written(w: World, e: Step): seq<Op> {
    match e
    case Call(a) => [Admit(a)]
    case Observe(op) => [op]
    case Capture(id, recovery) => [Attach(id, recovery)]
    case Settle(id, commit) =>
      if commit.Fails? || id !in w.phases || !w.phases[id].Settling? then []
      else if !w.phases[id].state.Applied? && (id !in w.store.rows || !w.store.rows[id].state.Prepared?) then []
      else [Finish(id, w.phases[id].state, w.phases[id].result)]
    case _ => []
  }

  lemma {:induction false} StoreMoves(w: World, e: Step, parse: string -> Option<Document>)
    ensures Next(w, e, parse).store == ApplyAll(w.store, Written(w, e))
  {
    var ops := Written(w, e);
    if ops != [] { assert ops[1..] == []; }
  }

  lemma {:induction false} StoreStaysSound(w: World, e: Step, parse: string -> Option<Document>)
    requires Sound(w.store)
    ensures Sound(Next(w, e, parse).store)
  {
    StoreMoves(w, e, parse);
    RunsStaySound(w.store, Written(w, e));
  }

  lemma {:induction false} OnceMore(w: World, v: World, id: string)
    requires Once(w) && id !in w.flights
    requires v.dispatches == w.dispatches + [id] && v.flights.Keys == w.flights.Keys + {id}
    ensures Once(v)
  {
  }

  lemma {:induction false} OnceAsBefore(w: World, v: World)
    requires Once(w) && v.dispatches == w.dispatches && v.flights.Keys == w.flights.Keys
    ensures Once(v)
  {
  }

  lemma {:induction false} DispatchedStaysOnce(w: World, e: Step, parse: string -> Option<Document>)
    requires Once(w) && Fits(CaseOf(w, Subject(e))) && Enabled(w, e, parse)
    ensures Once(Next(w, e, parse))
  {
    hide Once, Apply, Sound, Stack, Judge, Answerable;
    if e.Dispatch? {
      OnceMore(w, Next(w, e, parse), e.id);
    } else {
      OnceAsBefore(w, Next(w, e, parse));
    }
  }

  lemma {:induction false} FinalRowsStay(w: World, e: Step, parse: string -> Option<Document>, id: string)
    requires id in w.store.rows
    ensures id in Next(w, e, parse).store.rows
    ensures Final(w.store.rows[id].state) ==> Next(w, e, parse).store.rows[id] == w.store.rows[id]
    ensures Next(w, e, parse).store.rows[id].input == w.store.rows[id].input
  {
    StoreMoves(w, e, parse);
    BindingForever(w.store, Written(w, e), id);
    if Final(w.store.rows[id].state) { FinalForever(w.store, Written(w, e), id); }
  }

  lemma {:induction false} NewAnswersHold(w: World, e: Step, parse: string -> Option<Document>)
    requires Subject(e) in w.store.rows ==> Readable(w.store.rows[Subject(e)])
    requires Fits(CaseOf(w, Subject(e))) && Enabled(w, e, parse)
    ensures w.answers <= Next(w, e, parse).answers
    ensures |Next(w, e, parse).answers| <= |w.answers| + 1
    ensures |Next(w, e, parse).answers| > |w.answers| ==>
              var a := Next(w, e, parse).answers[|w.answers|];
              AnswerHolds(Next(w, e, parse), a.id, a.answer)
  {
    if e.Settle? { SettledAnswers(w, e.id, e.commit); }
  }

  lemma {:induction false} SettledAnswers(w: World, id: string, commit: Commit)
    requires Fits(CaseOf(w, id)) && id in w.phases && w.phases[id].Settling?
    ensures var v := Settled(w, id, w.phases[id].state, w.phases[id].result, commit);
            v.answers == w.answers || (|v.answers| == |w.answers| + 1 && w.answers <= v.answers
                                       && v.answers[|w.answers|].id == id && AnswerHolds(v, id, v.answers[|w.answers|].answer))
  {
  }

  lemma {:induction false} OldAnswerHolds(w: World, e: Step, parse: string -> Option<Document>, t: Told)
    requires AnswerHolds(w, t.id, t.answer)
    ensures AnswerHolds(Next(w, e, parse), t.id, t.answer)
  {
    FinalRowsStay(w, e, parse, t.id);
  }

  lemma {:induction false} AnswersStay(w: World, e: Step, parse: string -> Option<Document>)
    requires Sound(w.store) && Fits(CaseOf(w, Subject(e))) && AnswersHold(w) && Enabled(w, e, parse)
    ensures AnswersHold(Next(w, e, parse))
  {
    NewAnswersHold(w, e, parse);
    var v := Next(w, e, parse);
    forall k | 0 <= k < |v.answers| ensures AnswerHolds(v, v.answers[k].id, v.answers[k].answer) {
      if k < |w.answers| { OldAnswerHolds(w, e, parse, w.answers[k]); }
    }
  }

  lemma {:induction false} StepKeepsInv(w: World, e: Step, parse: string -> Option<Document>)
    requires Inv(w) && Enabled(w, e, parse)
    ensures Inv(Next(w, e, parse))
  {
    assert Fits(CaseOf(w, Subject(e)));
    StoreStaysSound(w, e, parse);
    DispatchedStaysOnce(w, e, parse);
    AnswersStay(w, e, parse);
    SubjectFits(w, e, parse);
    forall id ensures Fits(CaseOf(Next(w, e, parse), id)) {
      if id != Subject(e) { OthersUntouched(w, e, parse, id); }
    }
  }

  lemma {:induction false} RunsKeepInv(w: World, steps: seq<Step>, parse: string -> Option<Document>)
    requires Inv(w) && Possible(w, steps, parse)
    ensures Inv(Run(w, steps, parse))
    decreases |steps|
  {
    if steps != [] {
      StepKeepsInv(w, steps[0], parse);
      RunsKeepInv(Next(w, steps[0], parse), steps[1..], parse);
    }
  }

  lemma {:induction false} StartIsInv()
    ensures Inv(START)
  {
    EmptyIsSound();
  }

  // ----- what every run keeps -----

  /** Across calls, crashes and retries the native operation is handed down at most once per id. */
  lemma {:induction false} DispatchedAtMostOnce(steps: seq<Step>, parse: string -> Option<Document>, i: nat, j: nat)
    requires Possible(START, steps, parse)
    requires i < j < |Run(START, steps, parse).dispatches|
    ensures Run(START, steps, parse).dispatches[i] != Run(START, steps, parse).dispatches[j]
  {
    StartIsInv();
    RunsKeepInv(START, steps, parse);
  }

  /** An APPLIED answer means an APPLIED row and a change on disk. */
  lemma {:induction false} AppliedAnswerIsTrue(steps: seq<Step>, parse: string -> Option<Document>, id: string)
    requires Possible(START, steps, parse)
    requires Told(id, AnswerApplied) in Run(START, steps, parse).answers
    ensures var w := Run(START, steps, parse);
            && id in w.store.rows && w.store.rows[id].state.Applied?
            && id in w.flights && w.flights[id].Landed? && w.flights[id].script.committed
  {
    StartIsInv();
    RunsKeepInv(START, steps, parse);
    assert Fits(CaseOf(Run(START, steps, parse), id));
  }

  /** A DENIED answer means a DENIED row and an operation that changed nothing and never will. */
  lemma {:induction false} DeniedAnswerIsTrue(steps: seq<Step>, parse: string -> Option<Document>, id: string)
    requires Possible(START, steps, parse)
    requires Told(id, AnswerDenied) in Run(START, steps, parse).answers
    ensures var w := Run(START, steps, parse);
            && id in w.store.rows && w.store.rows[id].state.Denied?
            && (id in w.flights ==> !MayChange(w.flights[id]))
  {
    StartIsInv();
    RunsKeepInv(START, steps, parse);
    assert Fits(CaseOf(Run(START, steps, parse), id));
  }

  /** Whatever changed the disk, or still may, is on record as APPLIED, UNRESOLVED or PREPARED. */
  lemma {:induction false} ChangesAreOnRecord(steps: seq<Step>, parse: string -> Option<Document>, id: string)
    requires Possible(START, steps, parse)
    requires id in Run(START, steps, parse).flights && MayChange(Run(START, steps, parse).flights[id])
    ensures var w := Run(START, steps, parse);
            && id in w.store.rows
            && (w.store.rows[id].state.Applied? || w.store.rows[id].state.Unresolved? || w.store.rows[id].state.Prepared?)
  {
    StartIsInv();
    RunsKeepInv(START, steps, parse);
    assert Fits(CaseOf(Run(START, steps, parse), id));
  }

  /** Never two native operations in the air on one volume, not even after the controllers that
      launched them crashed or timed out. */
  lemma {:induction false} OneFlightPerVolume(steps: seq<Step>, parse: string -> Option<Document>, a: string, b: string)
    requires Possible(START, steps, parse)
    requires var w := Run(START, steps, parse);
             a in w.flights && b in w.flights && w.flights[a].Aloft? && w.flights[b].Aloft?
    ensures var w := Run(START, steps, parse);
            a in w.store.rows && b in w.store.rows
            && (w.store.rows[a].input.volumeKey == w.store.rows[b].input.volumeKey ==> a == b)
  {
    StartIsInv();
    RunsKeepInv(START, steps, parse);
    var w := Run(START, steps, parse);
    assert Fits(CaseOf(w, a)) && Fits(CaseOf(w, b));
  }
}
