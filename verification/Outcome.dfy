/** How the outcome of one native mutation is classified on its way up: the helper's transaction and
    receipt, the transport, the client, the runtime and the core. */
module Outcome {
  import opened Wrappers

  const OUTPUT_LIMIT := 0x40_0000

  // ----- the native helper -----

  /** What the helper may still claim about the disk. */
  datatype Claim = NoChange | Unknown | Applied

  const WATCHDOG := 124

  /** A helper ended from outside, by its own watchdog or by a signal: the exit code that is left, and
      whatever it had printed by then. */
  datatype Stop = Undisturbed | Cut(code: Option<int>, printed: Option<Document>)

  /** Everything the helper does not control in one run: which step fails, what the transaction
      manager answers, whether it is ended early, and what the disk holds once the process is gone. */
  datatype Script = Script(prepared: bool, wrote: bool, commits: bool, rollsBack: bool, answered: bool,
                           stop: Stop, committed: bool)

  /** The transaction manager keeps its word: a reported commit is on disk, a reported rollback or
      a commit never asked for is not. Whoever ends the helper does not use its own two exit codes. */
  predicate Honest(s: Script) {
    && (s.stop.Cut? ==> s.stop.code !in {Some(0), Some(1)})
    && (s.prepared && s.wrote && s.commits ==> s.committed)
    && (!s.prepared || !s.wrote || (!s.commits && s.rollsBack) ==> !s.committed)
  }

  datatype Document = Refusal(code: string) | Success(body: string) | Other

  const NO_CHANGE := "DENIED_NO_CHANGE"
  const OUTCOME_UNKNOWN := "OUTCOME_UNKNOWN"

  /** How the process ended; the code is None when a signal ended it. */
  datatype Exit = Exit(code: Option<int>, printed: Option<Document>)

  class Helper {
    var outcome: Claim

    constructor ()
      ensures outcome == NoChange
    {
      outcome := NoChange;
    }

    /** Asks for the commit: from here until the answer nothing is known. */
    method AskCommit()
      modifies this
      ensures outcome == Unknown
    {
      outcome := Unknown;
    }

    /** The answer to the commit that was asked for. */
    method CommitAnswered(commits: bool) returns (committed: bool)
      requires outcome == Unknown
      modifies this
      ensures committed == commits
      ensures outcome == if commits then Applied else Unknown
    {
      if !commits { return false; }
      outcome := Applied;
      return true;
    }

    /** The transaction's destructor. */
    method Teardown(committed: bool, rollsBack: bool)
      modifies this
      ensures outcome == if committed then old(outcome) else if rollsBack then NoChange else Unknown
    {
      if !committed {
        outcome := if rollsBack then NoChange else Unknown;
      }
    }

    /** The body of one mutation; false when an exception leaves it. */
    method Perform(s: Script) returns (ok: bool)
      requires outcome == NoChange
      modifies this
      ensures ok <==> s.prepared && s.wrote && s.commits && s.answered
      ensures outcome == Applied <==> s.prepared && s.wrote && s.commits
      ensures outcome == NoChange <==> !s.prepared || ((!s.wrote || !s.commits) && s.rollsBack)
    {
      if !s.prepared { return false; }
      var committed := false;
      if s.wrote {
        AskCommit();
        committed := CommitAnswered(s.commits);
      }
      Teardown(committed, s.rollsBack);
      return committed && s.answered;
    }

    /** One run of the process: a success document, or a receipt that depends on the claim. */
    method Run(s: Script) returns (e: Exit)
      requires outcome == NoChange
      modifies this
      ensures e == Ending(s)
      ensures s.stop.Undisturbed? ==>
                && (e == Exit(Some(0), Some(Success(""))) <==> s.prepared && s.wrote && s.commits && s.answered)
                && (e == Exit(Some(1), Some(Refusal("DENIED_NO_CHANGE"))) <==> !s.prepared || ((!s.wrote || !s.commits) && s.rollsBack))
                && e.code in {Some(0), Some(1)} && e.printed in {Some(Success("")), Some(Refusal("DENIED_NO_CHANGE")), Some(Refusal("OUTCOME_UNKNOWN"))}
                && (e.code == Some(0) <==> e.printed == Some(Success("")))
      ensures s.stop.Cut? ==> e.code == s.stop.code && e.printed == s.stop.printed
    {
      var ok := Perform(s);
      if s.stop.Cut? { return Exit(s.stop.code, s.stop.printed); }
      if ok { return Exit(Some(0), Some(Success(""))); }
      return Exit(Some(1), Some(Refusal(if outcome == NoChange then NO_CHANGE else OUTCOME_UNKNOWN)));
    }
  }

  /** What a run leaves for the transport. */
  function Ending(s: Script): Exit {
    if s.stop.Cut? then Exit(s.stop.code, s.stop.printed)
    else if s.prepared && s.wrote && s.commits && s.answered then Exit(Some(0), Some(Success("")))
    else if !s.prepared || ((!s.wrote || !s.commits) && s.rollsBack) then Exit(Some(1), Some(Refusal(NO_CHANGE)))
    else Exit(Some(1), Some(Refusal(OUTCOME_UNKNOWN)))
  }

  /** The receipt tells the truth: exit 0 only with the change on disk, and exit 1 with the
      no-change receipt only without it. */
  lemma {:induction false} ReceiptIsTrue(s: Script)
    requires Honest(s)
    ensures Ending(s).code == Some(0) ==> s.committed
    ensures Ending(s) == Exit(Some(1), Some(Refusal(NO_CHANGE))) ==> !s.committed
  {
  }

  // ----- what a layer reports upward -----

  datatype Verdict = Replied(body: string) | NativeDenied | NativeUnresolved | Failed

  // ----- the transport -----

  datatype Signal = Stdout(chunk: string) | Stderr | StdinError | ChildError | Timeout

  function Output(signals: seq<Signal>): string {
    if signals == [] then ""
    else
      Output(signals[..|signals| - 1]) +
      (match signals[|signals| - 1] case Stdout(c) => c case _ => "")
  }

  /** Anything but output within the limit spoils the exchange. */
  predicate Spoiled(signals: seq<Signal>) {
    |Output(signals)| > OUTPUT_LIMIT || exists i :: 0 <= i < |signals| && !signals[i].Stdout?
  }

  class Exchange {
    var size: nat
    var failed: bool
    var chunks: seq<string>
    ghost var seen: seq<Signal>

    ghost predicate Valid()
      reads this
    {
      && size == |Output(seen)|
      && failed == Spoiled(seen)
      && (failed ==> chunks == [])
      && (!failed ==> Joined(chunks) == Output(seen))
    }

    constructor ()
      ensures Valid() && seen == []
    {
      size, failed, chunks, seen := 0, false, [], [];
    }

    method Fail()
      modifies this`failed, this`chunks
      ensures failed && chunks == []
    {
      failed, chunks := true, [];
    }

    method Receive(e: Signal)
      requires Valid()
      modifies this
      ensures Valid() && seen == old(seen) + [e]
    {
      SpoiledGrows(seen, e);
      seen := seen + [e];
      match e
      case Stdout(chunk) =>
        size := size + |chunk|;
        if size > OUTPUT_LIMIT {
          Fail();
        } else if !failed {
          JoinedGrows(chunks, chunk);
          chunks := chunks + [chunk];
        }
      case _ => Fail();
    }

    /** The verdict once the child is closed: whatever is not a clean answer to a mutation is
        unresolved, except a no-change receipt with exit code 1. */
    method Close(code: Option<int>, spawned: bool, mutation: bool, parse: string -> Option<Document>) returns (v: Verdict)
      requires Valid()
      ensures v == Transported(seen, code, spawned, mutation, parse)
      ensures var clean := |Output(seen)| <= 0x40_0000 && forall i :: 0 <= i < |seen| ==> seen[i].Stdout?;
              var document := parse(Output(seen));
              && (v.Replied? <==> clean && code == Some(0) && document.Some?)
              && (v.Replied? && document.value.Success? ==> v.body == document.value.body)
              && (!v.Replied? ==>
                    v == if (clean && code == Some(1) && document == Some(Refusal("DENIED_NO_CHANGE"))) || !mutation then NativeDenied
                         else if !spawned && !(clean && code == Some(0)) then NativeDenied else NativeUnresolved)
    {
      if failed || code != Some(0) {
        if !failed && code == Some(1) {
          if parse(Joined(chunks)) == Some(Refusal(NO_CHANGE)) { return NativeDenied; }
        }
        return if spawned && mutation then NativeUnresolved else NativeDenied;
      }
      match parse(Joined(chunks))
      case Some(Success(body)) => return Replied(body);
      case Some(_) => return Replied("");
      case None => return if mutation then NativeUnresolved else NativeDenied;
    }
  }

  function Joined(chunks: seq<string>): string {
    if chunks == [] then "" else Joined(chunks[..|chunks| - 1]) + chunks[|chunks| - 1]
  }

  lemma {:induction false} JoinedGrows(chunks: seq<string>, c: string)
    ensures Joined(chunks + [c]) == Joined(chunks) + c
  {
    assert (chunks + [c])[..|chunks|] == chunks;
  }

  lemma {:induction false} SpoiledGrows(signals: seq<Signal>, e: Signal)
    ensures Output(signals + [e]) == Output(signals) + (if e.Stdout? then e.chunk else "")
    ensures Spoiled(signals + [e]) <==> Spoiled(signals) || !e.Stdout? || |Output(signals + [e])| > OUTPUT_LIMIT
  {
    var more := signals + [e];
    assert more[..|signals|] == signals;
    assert more[|signals|] == e;
    assert forall i :: 0 <= i < |signals| ==> more[i] == signals[i];
  }

  function Transported(signals: seq<Signal>, code: Option<int>, spawned: bool, mutation: bool,
                       parse: string -> Option<Document>): Verdict
  {
    if Spoiled(signals) || (code != Some(0) && code != Some(1)) then
      if spawned && mutation then NativeUnresolved else NativeDenied
    else if code == Some(1) then
      if parse(Output(signals)) == Some(Refusal(NO_CHANGE)) || !spawned || !mutation then NativeDenied else NativeUnresolved
    else match parse(Output(signals))
      case Some(Success(body)) => Replied(body)
      case Some(_) => Replied("")
      case None => if mutation then NativeUnresolved else NativeDenied
  }

  // ----- the client, the runtime and the core -----

  /** Checks that pass or fail in the layers above the transport, in the order they are made. */
  datatype Checks = Checks(guarded: bool, admissible: bool, launchable: bool, accepted: bool, pinned: bool, expected: bool)

  /** The client: its own refusals precede the transport; a reply it cannot accept after a mutation
      is unresolved. */
  method ClientInvoke(mutation: bool, c: Checks, below: Verdict) returns (v: Verdict)
    ensures v == Client(mutation, c, below)
  {
    if !c.admissible { return NativeDenied; }
    match below {
      case NativeUnresolved => return NativeUnresolved;
      case NativeDenied => return NativeDenied;
      case Failed => return if mutation then NativeUnresolved else NativeDenied;
      case Replied(_) =>
    }
    if c.accepted { return below; }
    return if mutation then NativeUnresolved else NativeDenied;
  }

  function Client(mutation: bool, c: Checks, below: Verdict): Verdict {
    if !c.admissible then NativeDenied
    else if below.Replied? then (if c.accepted then below else if mutation then NativeUnresolved else NativeDenied)
    else if below.Failed? then (if mutation then NativeUnresolved else NativeDenied)
    else below
  }

  /** The runtime's backend: root and path guards before, the root pin again after. */
  method BackendInvoke(mutation: bool, c: Checks, below: Verdict) returns (v: Verdict)
    ensures v == Runtime(mutation, c, below)
  {
    if !c.guarded { return NativeDenied; }
    v := ClientInvoke(mutation, c, below);
    if v.Replied? && !c.pinned {
      return if mutation then NativeUnresolved else NativeDenied;
    }
  }

  function Runtime(mutation: bool, c: Checks, below: Verdict): Verdict {
    if !c.guarded then NativeDenied
    else
      var v := Client(mutation, c, below);
      if v.Replied? && !c.pinned then (if mutation then NativeUnresolved else NativeDenied) else v
  }

  /** The core's own check of a reply throws a plain error. */
  function Core(c: Checks, below: Verdict): Verdict {
    if below.Replied? && !c.expected then Failed else below
  }

  // ----- the five layers together -----

  /** How far the native operation got when its caller is answered. */
  datatype Flight = Grounded | Aloft | Landed(script: Script)

  /** What the transport observed of one child. */
  datatype Relay = Relay(signals: seq<Signal>, code: Option<int>)

  predicate Launches(c: Checks) {
    c.guarded && c.admissible && c.launchable
  }

  /** The relay between the transport and the helper: one that exits normally has waited for the
      helper and passed on its exit code and its whole output. */
  ghost predicate Forwards(f: Flight, r: Relay, parse: string -> Option<Document>) {
    !Spoiled(r.signals) && r.code.Some? ==>
      && f.Landed?
      && r.code == Ending(f.script).code
      && parse(Output(r.signals)) == Ending(f.script).printed
  }

  /** The verdict of the whole stack for one mutation. */
  function Stack(f: Flight, r: Relay, c: Checks, parse: string -> Option<Document>): Verdict {
    var transported := if f.Grounded? then NativeDenied else Transported(r.signals, r.code, true, true, parse);
    Core(c, Runtime(true, c, transported))
  }

  ghost predicate Answerable(f: Flight, r: Relay, c: Checks, parse: string -> Option<Document>) {
    && (f.Grounded? <==> !Launches(c))
    && (!f.Grounded? ==> Forwards(f, r, parse))
    && (f.Landed? ==> Honest(f.script))
  }

  /** Whether the change is on disk or may still get there. */
  predicate MayChange(f: Flight) {
    f.Aloft? || (f.Landed? && f.script.committed)
  }

  /** No layer calls a change that happened, or may still happen, a no-change denial. */
  lemma {:induction false} ChangeIsNeverDenied(f: Flight, r: Relay, c: Checks, parse: string -> Option<Document>)
    requires Answerable(f, r, c, parse) && MayChange(f)
    ensures var t := Transported(r.signals, r.code, true, true, parse);
            && t != NativeDenied
            && Client(true, c, t) != NativeDenied
            && Runtime(true, c, t) != NativeDenied
            && Stack(f, r, c, parse) != NativeDenied
  {
    if f.Landed? { ReceiptIsTrue(f.script); }
  }

  /** A reply that reaches the core proves the change is on disk. */
  lemma {:induction false} ReplyMeansCommitted(f: Flight, r: Relay, c: Checks, parse: string -> Option<Document>)
    requires Answerable(f, r, c, parse) && Stack(f, r, c, parse).Replied?
    ensures f.Landed? && f.script.committed
  {
    ReceiptIsTrue(f.script);
  }

  /** Exactly when the whole stack answers with a no-change denial. */
  lemma {:induction false} DeniedIff(f: Flight, r: Relay, c: Checks, parse: string -> Option<Document>)
    requires Answerable(f, r, c, parse)
    ensures Stack(f, r, c, parse) == NativeDenied <==>
            || !Launches(c)
            || (f.Landed? && !Spoiled(r.signals) && r.code == Some(1) && Ending(f.script).printed == Some(Refusal(NO_CHANGE)))
  {
  }

  /** Exactly when a reply reaches the core: everything was launched, the exchange was clean, the process
      ended with 0, and every check of the reply passed. */
  lemma {:induction false} RepliedIff(f: Flight, r: Relay, c: Checks, parse: string -> Option<Document>)
    requires Answerable(f, r, c, parse)
    ensures Stack(f, r, c, parse).Replied? <==>
            Launches(c) && !Spoiled(r.signals) && r.code == Some(0) && c.accepted && c.pinned && c.expected
  {
  }

  /** A run that the watchdog ends is unresolved on every layer, whatever it had done or printed. */
  lemma {:induction false} WatchdogIsUnresolved(f: Flight, r: Relay, c: Checks, parse: string -> Option<Document>)
    requires Answerable(f, r, c, parse) && f.Landed? && f.script.stop.Cut? && f.script.stop.code == Some(WATCHDOG)
    ensures Transported(r.signals, r.code, true, true, parse) == NativeUnresolved
    ensures Stack(f, r, c, parse) == NativeUnresolved
  {
    if !Spoiled(r.signals) && r.code.Some? { assert r.code == Some(WATCHDOG); }
  }

  /** And such a run can be answered: the relay passes on the code. */
  lemma {:induction false} WatchdogIsRelayed(s: Script, c: Checks, parse: string -> Option<Document>)
    requires Honest(s) && s.stop == Cut(Some(WATCHDOG), parse("")) && Launches(c)
    ensures Answerable(Landed(s), Relay([], Some(WATCHDOG)), c, parse)
  {
    assert Output([]) == "";
  }
}
