/** Publishing a task's commit, running a task and repairing one: which effects can happen, in which
    order, whatever port fails and whenever. */
module Publishing {
  import opened Formats
  import opened Wrappers

  datatype Status =
    | Queued | WaitingRepoLock | Preparing | Running | Verifying | Publishing | NeedsApproval | NeedsRecovery
    | Completed | Failed | Interrupted | Cancelled

  datatype CiOutcome = Success | Failure | Pending | TimedOut

  datatype Effect =
    | Resolved | Acquired | Fetched | WorkspaceMade | Instructed | Analyzed | Modified | Reported(to: Status)
    | ChecksPassed | EvidenceBound | PassAsserted | CommitMade(sha: string) | CommitRecorded(sha: string)
    | Audited(event: string) | CommitAsserted(sha: string) | Pushed(sha: string) | RemoteConfirmed(sha: string)
    | ConfirmationRecorded(sha: string) | Released | PrEnsured(sha: string) | CiObserved(outcome: CiOutcome) | CompletionAsked
    | Reused | Repaired

  /** What a call to a port comes to; a call may fail after it took effect. */
  datatype Fate = Works | FailsEarly | FailsLate

  // ----- the task graph -----

  const EXCEPTIONAL := {NeedsApproval, NeedsRecovery, Failed, Interrupted, Cancelled}
  const RESUMED := {WaitingRepoLock, Preparing, Running, Verifying, Publishing, Failed, Cancelled}

  function Transitions(from: Status): set<Status> {
    match from
    case Queued => {WaitingRepoLock, Cancelled}
    case WaitingRepoLock => {Preparing} + EXCEPTIONAL
    case Preparing => {Running} + EXCEPTIONAL
    case Running => {Verifying} + EXCEPTIONAL
    case Verifying => {Running, Publishing} + EXCEPTIONAL
    case Publishing => {Running, Completed} + EXCEPTIONAL
    case NeedsApproval => RESUMED
    case NeedsRecovery => RESUMED
    case Failed => {Queued}
    case Interrupted => RESUMED + {NeedsRecovery}
    case _ => {}
  }

  /** PUBLISHING is the only status a task completes from, and COMPLETED the end. */
  lemma {:induction false} OnlyPublishingCompletes(from: Status)
    ensures Completed in Transitions(from) <==> from == Publishing
    ensures Transitions(Completed) == {}
  {
  }

  // ----- the effects of a run that goes well -----

  function ToCommit(sha: string, asserts: bool): seq<Effect> {
    [PassAsserted, CommitMade(sha), CommitRecorded(sha), Audited("COMMIT_CREATED")] + (if asserts then [CommitAsserted(sha)] else [])
  }

  function ToRelease(sha: string): seq<Effect> {
    [Audited("PUSH_STARTED"), Pushed(sha), RemoteConfirmed(sha), ConfirmationRecorded(sha),
     Audited("REMOTE_PUSH_CONFIRMED"), Released, Audited("REPO_LOCK_RELEASED")]
  }

  /** Publication: evidence, commit, evidence about that commit if the port is there, push, remote
      confirmation, release. */
  function Publication(sha: string, asserts: bool): seq<Effect> {
    ToCommit(sha, asserts) + ToRelease(sha)
  }

  function Preparation(): seq<Effect> {
    [Resolved, Acquired, Fetched, WorkspaceMade, Reported(Running), Instructed, Analyzed, Modified, Reported(Verifying),
     ChecksPassed, Reported(Publishing), EvidenceBound]
  }

  function Closing(sha: string, outcome: CiOutcome): seq<Effect> {
    [PrEnsured(sha), CiObserved(outcome)] + (if outcome.Success? then [CompletionAsked] else [])
  }

  function WholeRun(sha: string, asserts: bool, outcome: CiOutcome): seq<Effect> {
    Preparation() + (Publication(sha, asserts) + Closing(sha, outcome))
  }

  function WholeRepair(sha: string, outcome: CiOutcome): seq<Effect> {
    [Audited("REPAIR_CYCLE_STARTED"), Acquired, Reused, Repaired, ChecksPassed, Pushed(sha), RemoteConfirmed(sha), Released,
     CiObserved(outcome), Audited("REPAIR_CYCLE_COMPLETED")]
  }

  lemma {:induction false} OneMore(start: seq<Effect>, log: seq<Effect>, whole: seq<Effect>, k: nat, e: Effect)
    requires k < |whole| && whole[k] == e && log == start + whole[..k]
    ensures log + [e] == start + whole[..k + 1]
  {
    assert whole[..k + 1] == whole[..k] + [e];
  }

  /** Every call of a stretch works. */
  predicate AllWork(luck: Effect -> Fate, whole: seq<Effect>, from: nat, to: nat) {
    to <= |whole| && forall k :: from <= k < to ==> luck(whole[k]).Works?
  }

  lemma {:induction false} NoneYet(luck: Effect -> Fate, whole: seq<Effect>, k: nat)
    requires k <= |whole|
    ensures AllWork(luck, whole, k, k)
  {
  }

  /** The log is what it was at the start and then the first `k` effects of the whole. */
  predicate Reached(log: seq<Effect>, start: seq<Effect>, whole: seq<Effect>, k: nat) {
    k <= |whole| && log == start + whole[..k]
  }

  // ----- the ports -----

  class Ports {
    const luck: Effect -> Fate
    var log: seq<Effect>

    constructor (luck: Effect -> Fate)
      ensures this.luck == luck && log == []
    {
      this.luck, log := luck, [];
    }

    /** One call to a port, after those from `from` on have worked, on the way to `to`; `done` counts the
        effects of `whole` that have happened. */
    method Do(e: Effect, ghost start: seq<Effect>, ghost whole: seq<Effect>, ghost from: nat, ghost k: nat, ghost to: nat)
      returns (ok: bool, ghost done: nat)
      requires from <= k < |whole| && k < to && whole[k] == e && Reached(log, start, whole, k) && AllWork(luck, whole, from, k)
      modifies this
      ensures ok <==> luck(e).Works?
      ensures if ok then AllWork(luck, whole, from, k + 1) else !AllWork(luck, whole, from, to)
      ensures k <= done <= k + 1 && (done == k <==> luck(e).FailsEarly?)
      ensures Reached(log, start, whole, done)
    {
      OneMore(start, log, whole, k, e);
      done := k;
      if luck(e).FailsEarly? { return false, done; }
      log := log + [e];
      return luck(e).Works?, k + 1;
    }
  }

  /** A stretch of a whole run. */
  predicate Within(part: seq<Effect>, whole: seq<Effect>, at: nat) {
    at + |part| <= |whole| && forall k :: 0 <= k < |part| ==> whole[at + k] == part[k]
  }

  lemma {:induction false} CommitStages(sha: string, asserts: bool, whole: seq<Effect>, at: nat)
    requires Within(ToCommit(sha, asserts), whole, at)
    ensures |ToCommit(sha, asserts)| == (if asserts then 5 else 4) && at + |ToCommit(sha, asserts)| <= |whole|
    ensures whole[at] == PassAsserted && whole[at + 1] == CommitMade(sha) && whole[at + 2] == CommitRecorded(sha)
    ensures whole[at + 3] == Audited("COMMIT_CREATED") && (asserts ==> whole[at + 4] == CommitAsserted(sha))
  {
    var p := ToCommit(sha, asserts);
    assert whole[at + 0] == p[0] && whole[at + 1] == p[1] && whole[at + 2] == p[2] && whole[at + 3] == p[3];
    if asserts { assert whole[at + 4] == p[4]; }
  }

  lemma {:induction false} RemoteStages(sha: string, whole: seq<Effect>, at: nat)
    requires Within(ToRelease(sha), whole, at)
    ensures |ToRelease(sha)| == 7 && at + 7 <= |whole|
    ensures whole[at] == Audited("PUSH_STARTED") && whole[at + 1] == Pushed(sha) && whole[at + 2] == RemoteConfirmed(sha)
    ensures whole[at + 3] == ConfirmationRecorded(sha) && whole[at + 4] == Audited("REMOTE_PUSH_CONFIRMED")
    ensures whole[at + 5] == Released && whole[at + 6] == Audited("REPO_LOCK_RELEASED")
  {
    var p := ToRelease(sha);
    assert whole[at + 0] == p[0] && whole[at + 1] == p[1] && whole[at + 2] == p[2] && whole[at + 3] == p[3];
    assert whole[at + 4] == p[4] && whole[at + 5] == p[5] && whole[at + 6] == p[6];
  }

  method PublishCommit(ports: Ports, sha: string, asserts: bool, ghost start: seq<Effect>, ghost whole: seq<Effect>, ghost at: nat)
    returns (ok: bool, ghost done: nat)
    requires Within(ToCommit(sha, asserts), whole, at) && Reached(ports.log, start, whole, at)
    modifies ports
    ensures at <= done <= at + |ToCommit(sha, asserts)| && Reached(ports.log, start, whole, done)
    ensures ok <==> IsSha(sha) && AllWork(ports.luck, whole, at, at + |ToCommit(sha, asserts)|)
    ensures !IsSha(sha) ==> done <= at + 2
    ensures ok ==> done == at + |ToCommit(sha, asserts)|
  {
    hide ToCommit, Within, AllWork, Reached;
    CommitStages(sha, asserts, whole, at);
    NoneYet(ports.luck, whole, at);
    ok, done := ports.Do(PassAsserted, start, whole, at, at, at + |ToCommit(sha, asserts)|);
    if !ok { return; }
    ok, done := ports.Do(CommitMade(sha), start, whole, at, at + 1, at + |ToCommit(sha, asserts)|);
    if !ok || !IsSha(sha) { return false, done; }
    ok, done := ports.Do(CommitRecorded(sha), start, whole, at, at + 2, at + |ToCommit(sha, asserts)|);
    if !ok { return; }
    ok, done := ports.Do(Audited("COMMIT_CREATED"), start, whole, at, at + 3, at + |ToCommit(sha, asserts)|);
    if !ok || !asserts { return; }
    ok, done := ports.Do(CommitAsserted(sha), start, whole, at, at + 4, at + |ToCommit(sha, asserts)|);
  }

  /** The push; `confirms` is the remote's answer about the branch. */
  method Push(ports: Ports, sha: string, confirms: bool, ghost start: seq<Effect>, ghost whole: seq<Effect>, ghost at: nat)
    returns (ok: bool, ghost done: nat)
    requires Within(ToRelease(sha), whole, at) && Reached(ports.log, start, whole, at)
    modifies ports
    ensures at <= done <= at + 3 && Reached(ports.log, start, whole, done)
    ensures if ok then confirms && AllWork(ports.luck, whole, at, at + 3)
            else !confirms || !AllWork(ports.luck, whole, at, at + 7)
    ensures (ok ==> done == at + 3) && (!confirms ==> done <= at + 2)
  {
    hide ToRelease, Within, AllWork, Reached;
    RemoteStages(sha, whole, at);
    NoneYet(ports.luck, whole, at);
    ok, done := ports.Do(Audited("PUSH_STARTED"), start, whole, at, at, at + 7);
    if !ok { return; }
    ok, done := ports.Do(Pushed(sha), start, whole, at, at + 1, at + 7);
    if !ok || !confirms { return false, done; }
    ok, done := ports.Do(RemoteConfirmed(sha), start, whole, at, at + 2, at + 7);
  }

  method PublishRemote(ports: Ports, sha: string, confirms: bool, ghost start: seq<Effect>, ghost whole: seq<Effect>, ghost at: nat)
    returns (ok: bool, ghost done: nat)
    requires Within(ToRelease(sha), whole, at) && Reached(ports.log, start, whole, at)
    modifies ports
    ensures at <= done <= at + |ToRelease(sha)| && Reached(ports.log, start, whole, done)
    ensures ok <==> confirms && AllWork(ports.luck, whole, at, at + |ToRelease(sha)|)
    ensures !confirms ==> done <= at + 2
    ensures ok ==> done == at + |ToRelease(sha)|
  {
    hide ToRelease, Within, AllWork, Reached;
    RemoteStages(sha, whole, at);
    ok, done := Push(ports, sha, confirms, start, whole, at);
    if !ok { return; }
    ok, done := ports.Do(ConfirmationRecorded(sha), start, whole, at, at + 3, at + 7);
    if !ok { return; }
    ok, done := ports.Do(Audited("REMOTE_PUSH_CONFIRMED"), start, whole, at, at + 4, at + 7);
    if !ok { return; }
    ok, done := ports.Do(Released, start, whole, at, at + 5, at + 7);
    if !ok { return; }
    ok, done := ports.Do(Audited("REPO_LOCK_RELEASED"), start, whole, at, at + 6, at + 7);
  }

  /** The publication, at position `at` of a whole run. */
  method Publish(ports: Ports, sha: string, asserts: bool, confirms: bool,
                 ghost start: seq<Effect>, ghost whole: seq<Effect>, ghost at: nat)
    returns (ok: bool, ghost done: nat)
    requires Within(Publication(sha, asserts), whole, at) && Reached(ports.log, start, whole, at)
    modifies ports
    ensures at <= done <= at + |Publication(sha, asserts)| && Reached(ports.log, start, whole, done)
    ensures ok <==> IsSha(sha) && confirms && AllWork(ports.luck, whole, at, at + |Publication(sha, asserts)|)
    ensures !IsSha(sha) ==> done <= at + 2
    ensures !confirms ==> done <= at + |ToCommit(sha, asserts)| + 2
    ensures ok ==> done == at + |Publication(sha, asserts)|
  {
    hide ToCommit, ToRelease, Within;
    SplitWithin(ToCommit(sha, asserts), ToRelease(sha), whole, at);
    ok, done := PublishCommit(ports, sha, asserts, start, whole, at);
    if !ok { return; }
    ok, done := PublishRemote(ports, sha, confirms, start, whole, done);
  }

  lemma {:induction false} SplitWithin(a: seq<Effect>, b: seq<Effect>, whole: seq<Effect>, at: nat)
    requires Within(a + b, whole, at)
    ensures Within(a, whole, at) && Within(b, whole, at + |a|)
  {
    forall k | 0 <= k < |a| ensures whole[at + k] == a[k] { assert (a + b)[k] == a[k]; }
    forall k | 0 <= k < |b| ensures whole[at + |a| + k] == b[k] { assert (a + b)[|a| + k] == b[k]; }
  }

  /** The three stretches of a whole run. */
  lemma {:induction false} Stretches(sha: string, asserts: bool, outcome: CiOutcome)
    ensures var (whole, c) := (WholeRun(sha, asserts, outcome), |ToCommit(sha, asserts)|);
            && Within(Preparation(), whole, 0) && |Preparation()| == 12
            && Within(ToCommit(sha, asserts), whole, 12) && Within(ToRelease(sha), whole, 12 + c) && |ToRelease(sha)| == 7
            && Within(Closing(sha, outcome), whole, 19 + c)
  {
    hide ToCommit, Closing, Within;
    var whole := WholeRun(sha, asserts, outcome);
    WithinItself(whole);
    SplitWithin(Preparation(), Publication(sha, asserts) + Closing(sha, outcome), whole, 0);
    SplitWithin(Publication(sha, asserts), Closing(sha, outcome), whole, 12);
    SplitWithin(ToCommit(sha, asserts), ToRelease(sha), whole, 12);
  }

  lemma {:induction false} WholeLength(sha: string, asserts: bool, outcome: CiOutcome)
    ensures |WholeRun(sha, asserts, outcome)| == 19 + |ToCommit(sha, asserts)| + |Closing(sha, outcome)|
    ensures |Publication(sha, asserts)| == |ToCommit(sha, asserts)| + 7
  {
  }

  lemma {:induction false} PublicationWithin(sha: string, asserts: bool, whole: seq<Effect>)
    requires Within(ToCommit(sha, asserts), whole, 12) && Within(ToRelease(sha), whole, 12 + |ToCommit(sha, asserts)|)
    ensures Within(Publication(sha, asserts), whole, 12)
  {
    hide ToCommit, ToRelease;
    var (c, r, p) := (ToCommit(sha, asserts), ToRelease(sha), Publication(sha, asserts));
    forall k | 0 <= k < |p| ensures whole[12 + k] == p[k] {
      if k >= |c| { assert whole[12 + |c| + (k - |c|)] == r[k - |c|]; }
    }
  }

  /** Where the steps of a whole run stand. */
  lemma {:induction false} Positions(sha: string, asserts: bool, outcome: CiOutcome) returns (c: nat)
    ensures var whole := WholeRun(sha, asserts, outcome);
            && |whole| >= 19 + c && c == |ToCommit(sha, asserts)| == (if asserts then 5 else 4)
            && whole[1] == Acquired && whole[7] == Modified && whole[9] == ChecksPassed && whole[11] == EvidenceBound
            && whole[12] == PassAsserted && whole[13] == CommitMade(sha) && whole[14] == CommitRecorded(sha)
            && (asserts ==> whole[16] == CommitAsserted(sha))
            && whole[13 + c] == Pushed(sha) && whole[14 + c] == RemoteConfirmed(sha)
            && Within(Closing(sha, outcome), whole, 19 + c)
  {
    hide *;
    var whole := WholeRun(sha, asserts, outcome);
    Stretches(sha, asserts, outcome);
    ObtainingStages(whole);
    WorkingStages(whole);
    CheckingStages(whole);
    CommitStages(sha, asserts, whole, 12);
    c := |ToCommit(sha, asserts)|;
    RemoteStages(sha, whole, 12 + c);
  }

  lemma {:induction false} WithinItself(whole: seq<Effect>)
    ensures Within(whole, whole, 0)
  {
  }

  // ----- running a task -----

  /** What a run meets: the port answers. */
  datatype Meets = Meets(sha: string, asserts: bool, passed: bool, bound: bool, confirms: bool, outcome: CiOutcome)

  /** What the answers allow: no step happens whose condition was not met. */
  predicate Allowed(m: Meets, did: seq<Effect>) {
    && (ChecksPassed in did ==> m.passed)
    && (EvidenceBound in did ==> m.bound)
    && (CommitRecorded(m.sha) in did ==> IsSha(m.sha))
    && (RemoteConfirmed(m.sha) in did ==> m.confirms)
    && (CompletionAsked in did ==> m.outcome.Success?)
  }

  lemma {:induction false} HeldBack(m: Meets, done: nat)
    requires done <= |WholeRun(m.sha, m.asserts, m.outcome)|
    requires (!m.passed ==> done <= 9) && (!m.bound ==> done <= 11) && (!IsSha(m.sha) ==> done <= 14)
    requires !m.confirms ==> done <= 12 + |ToCommit(m.sha, m.asserts)| + 2
    ensures Allowed(m, WholeRun(m.sha, m.asserts, m.outcome)[..done])
  {
    hide WholeRun, ToCommit, Closing, Rising, Within;
    var whole := WholeRun(m.sha, m.asserts, m.outcome);
    var c := Positions(m.sha, m.asserts, m.outcome);
    WholeRises(m.sha, m.asserts, m.outcome);
    if !m.passed { NotYet(whole, 9, done); }
    if !m.bound { NotYet(whole, 11, done); }
    if !IsSha(m.sha) { NotYet(whole, 14, done); }
    if !m.confirms { NotYet(whole, 14 + c, done); }
    CompletionAsksIff(m.sha, m.asserts, m.outcome);
    assert forall e :: e in whole[..done] ==> e in whole;
  }

  lemma {:induction false} RepairHeldBack(m: Meets, done: nat)
    requires done <= |WholeRepair(m.sha, m.outcome)| && (!m.passed ==> done <= 4) && (!m.confirms ==> done <= 6)
    ensures Allowed(m, WholeRepair(m.sha, m.outcome)[..done])
  {
    hide Rising;
    var whole := WholeRepair(m.sha, m.outcome);
    RepairStages(m.sha, m.outcome);
    RepairRises(m.sha, m.outcome);
    if !m.passed { NotYet(whole, 4, done); }
    if !m.confirms { NotYet(whole, 6, done); }
    assert EvidenceBound !in whole && CommitRecorded(m.sha) !in whole && CompletionAsked !in whole;
    assert forall e :: e in whole[..done] ==> e in whole;
  }

  lemma {:induction false} CompletionAsksIff(sha: string, asserts: bool, outcome: CiOutcome)
    ensures CompletionAsked in WholeRun(sha, asserts, outcome) <==> outcome.Success?
  {
    PreparationOnly();
    CommitOnly(sha, asserts);
    var (p, c, r, e) := (Preparation(), ToCommit(sha, asserts), ToRelease(sha), Closing(sha, outcome));
    assert CompletionAsked !in r;
    assert CompletionAsked in e <==> outcome.Success? by { if outcome.Success? { assert e[2] == CompletionAsked; } }
    hide Preparation, ToCommit, ToRelease, Closing;
  }

  class TaskRunner {
    const ports: Ports
    /** What others do to the task's status at an await. */
    const others: (nat, Status) -> Status
    var status: Status
    ghost var completedFrom: Option<Status>

    constructor (ports: Ports, others: (nat, Status) -> Status, status: Status)
      ensures this.ports == ports && this.others == others && this.status == status && completedFrom == None
    {
      this.ports, this.others, this.status, completedFrom := ports, others, status, None;
    }

    /** Nobody else completes this task. */
    ghost predicate Gentle() {
      forall k, s :: others(k, s) == Completed ==> s == Completed
    }

    /** The progress adapter: a compare-and-swap that does nothing when it finds another status, and
        fails on a move the task graph does not have. */
    method Progress(from: Status, to: Status) returns (ok: bool)
      requires to != Completed
      modifies this`status
      ensures status != old(status) ==> old(status) == from && status == to && to in Transitions(from)
      ensures ok && old(status) == from ==> status == to
      ensures ok <==> old(status) != from || to in Transitions(from)
    {
      if status != from { return true; }
      if to !in Transitions(from) { return false; }
      status := to;
      return true;
    }

    /** The completion adapter. */
    method Complete() returns (ok: bool)
      modifies this`status, this`completedFrom
      ensures status != old(status) ==> status == Completed && old(status) == Publishing && completedFrom == Some(Publishing)
      ensures status == old(status) ==> completedFrom == old(completedFrom)
      ensures ok <==> status == Completed
    {
      if status == Completed { return true; }
      if Completed !in Transitions(status) { return false; }
      completedFrom := Some(status);
      status := Completed;
      return true;
    }

    /** One call that waits: others may move the task meanwhile. */
    method Await(e: Effect, ghost start: seq<Effect>, ghost whole: seq<Effect>, k: nat) returns (ok: bool, ghost done: nat)
      requires Gentle() && status != Completed
      requires k < 12 <= |whole| && whole[k] == e && Reached(ports.log, start, whole, k) && AllWork(ports.luck, whole, 0, k)
      modifies ports, this`status
      ensures status != Completed
      ensures if ok then AllWork(ports.luck, whole, 0, k + 1) else !AllWork(ports.luck, whole, 0, 12)
      ensures k <= done <= k + 1 && (ok ==> done == k + 1) && Reached(ports.log, start, whole, done)
    {
      ok, done := ports.Do(e, start, whole, 0, k, 12);
      status := others(k, status);
    }

    /** A progress report: the write itself does not wait. */
    method Report(from: Status, to: Status, ghost start: seq<Effect>, ghost whole: seq<Effect>, k: nat)
      returns (ok: bool, ghost done: nat)
      requires Gentle() && status != Completed && to != Completed && to in Transitions(from)
      requires k < 12 <= |whole| && whole[k] == Reported(to) && Reached(ports.log, start, whole, k) && AllWork(ports.luck, whole, 0, k)
      modifies ports, this`status
      ensures status != Completed
      ensures if ok then AllWork(ports.luck, whole, 0, k + 1) else !AllWork(ports.luck, whole, 0, 12)
      ensures k <= done <= k + 1 && (ok ==> done == k + 1) && Reached(ports.log, start, whole, done)
    {
      ok, done := ports.Do(Reported(to), start, whole, 0, k, 12);
      if ok { ok := Progress(from, to); }
      status := others(k, status);
    }

    /** Up to the publication. */
    method Prepare(m: Meets, ghost start: seq<Effect>, ghost whole: seq<Effect>) returns (ok: bool, ghost done: nat)
      requires Gentle() && status != Completed
      requires Within(Preparation(), whole, 0) && Reached(ports.log, start, whole, 0)
      modifies ports, this`status
      ensures status != Completed
      ensures done <= |Preparation()| && Reached(ports.log, start, whole, done)
      ensures ok <==> m.passed && m.bound && AllWork(ports.luck, whole, 0, |Preparation()|)
      ensures (!m.passed ==> done <= 9) && (!m.bound ==> done <= 11)
      ensures ok ==> done == |Preparation()|
    {
      hide *;
      ObtainingStages(whole);
      NoneYet(ports.luck, whole, 0);
      ok, done := Await(Resolved, start, whole, 0);
      if !ok { return; }
      ok, done := Await(Acquired, start, whole, 1);
      if !ok { return; }
      ok, done := Clone(m, start, whole);
    }

    /** The workspace, under the lease. */
    method Clone(m: Meets, ghost start: seq<Effect>, ghost whole: seq<Effect>) returns (ok: bool, ghost done: nat)
      requires Gentle() && status != Completed
      requires Within(Preparation(), whole, 0) && |whole| >= 12 && Reached(ports.log, start, whole, 2) && AllWork(ports.luck, whole, 0, 2)
      modifies ports, this`status
      ensures status != Completed
      ensures done <= |Preparation()| && Reached(ports.log, start, whole, done)
      ensures ok <==> m.passed && m.bound && AllWork(ports.luck, whole, 0, |Preparation()|)
      ensures (!m.passed ==> done <= 9) && (!m.bound ==> done <= 11)
      ensures ok ==> done == |Preparation()|
    {
      hide *;
      ObtainingStages(whole);
      ok, done := Await(Fetched, start, whole, 2);
      if !ok { return; }
      ok, done := Await(WorkspaceMade, start, whole, 3);
      if !ok { return; }
      ok, done := Work(m, start, whole);
    }

    /** The work itself. */
    method Work(m: Meets, ghost start: seq<Effect>, ghost whole: seq<Effect>) returns (ok: bool, ghost done: nat)
      requires Gentle() && status != Completed
      requires Within(Preparation(), whole, 0) && |whole| >= 12 && Reached(ports.log, start, whole, 4) && AllWork(ports.luck, whole, 0, 4)
      modifies ports, this`status
      ensures status != Completed
      ensures done <= |Preparation()| && Reached(ports.log, start, whole, done)
      ensures ok <==> m.passed && m.bound && AllWork(ports.luck, whole, 0, |Preparation()|)
      ensures (!m.passed ==> done <= 9) && (!m.bound ==> done <= 11)
      ensures ok ==> done == |Preparation()|
    {
      hide *;
      WorkingStages(whole);
      ReportedMoves();
      ok, done := Report(Preparing, Running, start, whole, 4);
      if !ok { return; }
      ok, done := Await(Instructed, start, whole, 5);
      if !ok { return; }
      ok, done := Await(Analyzed, start, whole, 6);
      if !ok { return; }
      ok, done := Await(Modified, start, whole, 7);
      if !ok { return; }
      ok, done := Check(m, start, whole);
    }

    /** The checks on it. */
    method Check(m: Meets, ghost start: seq<Effect>, ghost whole: seq<Effect>) returns (ok: bool, ghost done: nat)
      requires Gentle() && status != Completed
      requires Within(Preparation(), whole, 0) && |whole| >= 12 && Reached(ports.log, start, whole, 8) && AllWork(ports.luck, whole, 0, 8)
      modifies ports, this`status
      ensures status != Completed
      ensures done <= |Preparation()| && Reached(ports.log, start, whole, done)
      ensures ok <==> m.passed && m.bound && AllWork(ports.luck, whole, 0, |Preparation()|)
      ensures (!m.passed ==> done <= 9) && (!m.bound ==> done <= 11)
      ensures ok ==> done == |Preparation()|
    {
      hide *;
      CheckingStages(whole);
      ReportedMoves();
      ok, done := Report(Running, Verifying, start, whole, 8);
      if !ok || !m.passed { return false, done; }
      ok, done := Await(ChecksPassed, start, whole, 9);
      if !ok { return; }
      ok, done := Bind(m, start, whole);
    }

    /** The evidence for the checks that passed. */
    method Bind(m: Meets, ghost start: seq<Effect>, ghost whole: seq<Effect>) returns (ok: bool, ghost done: nat)
      requires Gentle() && status != Completed
      requires Within(Preparation(), whole, 0) && |whole| >= 12 && Reached(ports.log, start, whole, 10) && AllWork(ports.luck, whole, 0, 10)
      modifies ports, this`status
      ensures status != Completed
      ensures done <= 12 && Reached(ports.log, start, whole, done)
      ensures ok <==> m.bound && AllWork(ports.luck, whole, 0, 12)
      ensures !m.bound ==> done <= 11
      ensures ok ==> done == 12
    {
      hide *;
      CheckingStages(whole);
      ReportedMoves();
      ok, done := Report(Verifying, Publishing, start, whole, 10);
      if !ok || !m.bound { return false, done; }
      ok, done := Await(EvidenceBound, start, whole, 11);
    }

    /** After the publication: pull request, CI, and completion only on success. */
    method Close(m: Meets, ghost start: seq<Effect>, ghost whole: seq<Effect>, ghost at: nat) returns (ok: bool, ghost done: nat)
      requires Gentle() && status != Completed
      requires Within(Closing(m.sha, m.outcome), whole, at) && Reached(ports.log, start, whole, at)
      modifies ports, this`status, this`completedFrom
      ensures at <= done <= at + |Closing(m.sha, m.outcome)| && Reached(ports.log, start, whole, done)
      ensures status == Completed ==> m.outcome.Success? && done == at + |Closing(m.sha, m.outcome)| && completedFrom == Some(Publishing)
      ensures AllWork(ports.luck, whole, at, at + |Closing(m.sha, m.outcome)|) ==> done == at + |Closing(m.sha, m.outcome)|
      ensures ok && m.outcome.Success? ==> status == Completed
    {
      ghost var p := Closing(m.sha, m.outcome);
      NoneYet(ports.luck, whole, at);
      assert whole[at] == p[0] && whole[at + 1] == p[1];
      ok, done := ports.Do(PrEnsured(m.sha), start, whole, at, at, at + |p|);
      status := others(12, status);
      if !ok { return; }
      ok, done := ports.Do(CiObserved(m.outcome), start, whole, at, at + 1, at + |p|);
      status := others(13, status);
      if !ok || !m.outcome.Success? { return; }
      assert whole[at + 2] == p[2];
      ok, done := ports.Do(CompletionAsked, start, whole, at, at + 2, at + |p|);
      if !ports.luck(CompletionAsked).FailsEarly? {
        var completed := Complete();
        ok := ok && completed;
      }
    }

    /** One task from start to finish. Its effects are always the beginning of the one whole run, and
        the task is completed only at the very end of it, from PUBLISHING, after CI succeeded. */
    method Run(m: Meets) returns (ok: bool, ghost done: nat)
      requires Gentle() && status != Completed
      modifies ports, this
      ensures done <= |WholeRun(m.sha, m.asserts, m.outcome)|
      ensures ports.log == old(ports.log) + WholeRun(m.sha, m.asserts, m.outcome)[..done]
      ensures Allowed(m, WholeRun(m.sha, m.asserts, m.outcome)[..done])
      ensures status == Completed ==>
                && m.outcome.Success? && done == |WholeRun(m.sha, m.asserts, m.outcome)|
                && m.passed && m.bound && m.confirms && completedFrom == Some(Publishing)
      ensures m.passed && m.bound && m.confirms && IsSha(m.sha)
              && AllWork(ports.luck, WholeRun(m.sha, m.asserts, m.outcome), 0, |WholeRun(m.sha, m.asserts, m.outcome)|) ==>
                done == |WholeRun(m.sha, m.asserts, m.outcome)|
    {
      hide WholeRun, Preparation, ToCommit, ToRelease, Closing, Within, Allowed;
      ghost var whole := WholeRun(m.sha, m.asserts, m.outcome);
      ghost var start := ports.log;
      Stretches(m.sha, m.asserts, m.outcome);
      WholeLength(m.sha, m.asserts, m.outcome);
      PublicationWithin(m.sha, m.asserts, whole);
      ok, done := Prepare(m, start, whole);
      HeldBack(m, done);
      if !ok { return; }
      ok, done := Publish(ports, m.sha, m.asserts, m.confirms, start, whole, done);
      HeldBack(m, done);
      if !ok { return; }
      ok, done := Close(m, start, whole, done);
      HeldBack(m, done);
    }

    /** One repair of a published task whose CI failed. */
    method RunRepairCycle(m: Meets, observed: CiOutcome) returns (ok: bool, ghost done: nat)
      modifies ports
      ensures done <= |WholeRepair(m.sha, m.outcome)|
      ensures ports.log == old(ports.log) + WholeRepair(m.sha, m.outcome)[..done]
      ensures !observed.Failure? ==> done == 0
      ensures (!m.passed ==> done <= 4) && (!m.confirms ==> done <= 6)
      ensures Allowed(m, WholeRepair(m.sha, m.outcome)[..done])
      ensures ok <==> && observed.Failure? && m.passed && m.confirms
                      && AllWork(ports.luck, WholeRepair(m.sha, m.outcome), 0, |WholeRepair(m.sha, m.outcome)|)
      ensures ok ==> done == |WholeRepair(m.sha, m.outcome)|
    {
      ghost var whole := WholeRepair(m.sha, m.outcome);
      ghost var start := ports.log;
      RepairStages(m.sha, m.outcome);
      assert start + whole[..0] == start;
      NoneYet(ports.luck, whole, 0);
      forall n: nat | n <= 4 || (n <= 10 && m.passed && (m.confirms || n <= 6)) ensures Allowed(m, whole[..n]) {
        RepairHeldBack(m, n);
      }
      hide WholeRepair, AllWork, Allowed;
      if !observed.Failure? { return false, 0; }
      ok, done := ports.Do(Audited("REPAIR_CYCLE_STARTED"), start, whole, 0, 0, 10);
      if !ok { return; }
      ok, done := ports.Do(Acquired, start, whole, 0, 1, 10);
      if !ok { return; }
      ok, done := ports.Do(Reused, start, whole, 0, 2, 10);
      if !ok { return; }
      ok, done := ports.Do(Repaired, start, whole, 0, 3, 10);
      if !ok || !m.passed { return false, done; }
      ok, done := ports.Do(ChecksPassed, start, whole, 0, 4, 10);
      if !ok { return; }
      ok, done := FinishRepair(m, start);
    }

    method FinishRepair(m: Meets, ghost start: seq<Effect>) returns (ok: bool, ghost done: nat)
      requires Reached(ports.log, start, WholeRepair(m.sha, m.outcome), 5) && AllWork(ports.luck, WholeRepair(m.sha, m.outcome), 0, 5)
      modifies ports
      ensures 5 <= done <= |WholeRepair(m.sha, m.outcome)|
      ensures Reached(ports.log, start, WholeRepair(m.sha, m.outcome), done)
      ensures ok <==> m.confirms && AllWork(ports.luck, WholeRepair(m.sha, m.outcome), 0, |WholeRepair(m.sha, m.outcome)|)
      ensures !m.confirms ==> done <= 6
      ensures ok ==> done == |WholeRepair(m.sha, m.outcome)|
    {
      ghost var whole := WholeRepair(m.sha, m.outcome);
      RepairStages(m.sha, m.outcome);
      hide WholeRepair, AllWork, Reached;
      ok, done := ports.Do(Pushed(m.sha), start, whole, 0, 5, 10);
      if !ok || !m.confirms { return false, done; }
      ok, done := ports.Do(RemoteConfirmed(m.sha), start, whole, 0, 6, 10);
      if !ok { return; }
      ok, done := ports.Do(Released, start, whole, 0, 7, 10);
      if !ok { return; }
      ok, done := ports.Do(CiObserved(m.outcome), start, whole, 0, 8, 10);
      if !ok { return; }
      ok, done := ports.Do(Audited("REPAIR_CYCLE_COMPLETED"), start, whole, 0, 9, 10);
    }
  }

  /** The moves a run reports are moves of the task graph. */
  lemma {:induction false} ReportedMoves()
    ensures Running in Transitions(Preparing) && Verifying in Transitions(Running) && Publishing in Transitions(Verifying)
  {
  }

  lemma {:induction false} RepairStages(sha: string, outcome: CiOutcome)
    ensures var whole := WholeRepair(sha, outcome);
            && |whole| == 10
            && whole[0] == Audited("REPAIR_CYCLE_STARTED") && whole[1] == Acquired && whole[2] == Reused && whole[3] == Repaired
            && whole[4] == ChecksPassed && whole[5] == Pushed(sha) && whole[6] == RemoteConfirmed(sha) && whole[7] == Released
            && whole[8] == CiObserved(outcome) && whole[9] == Audited("REPAIR_CYCLE_COMPLETED")
  {
  }

  lemma {:induction false} ObtainingStages(whole: seq<Effect>)
    requires Within(Preparation(), whole, 0)
    ensures |whole| >= 12 && |Preparation()| == 12
    ensures whole[0] == Resolved && whole[1] == Acquired && whole[2] == Fetched && whole[3] == WorkspaceMade
  {
    var p := Preparation();
    forall k | 0 <= k < 12 ensures whole[k] == p[k] { assert whole[0 + k] == p[k]; }
  }

  lemma {:induction false} WorkingStages(whole: seq<Effect>)
    requires Within(Preparation(), whole, 0)
    ensures |whole| >= 12 && |Preparation()| == 12
    ensures whole[4] == Reported(Running) && whole[5] == Instructed && whole[6] == Analyzed && whole[7] == Modified
  {
    var p := Preparation();
    forall k | 0 <= k < 12 ensures whole[k] == p[k] { assert whole[0 + k] == p[k]; }
  }

  lemma {:induction false} CheckingStages(whole: seq<Effect>)
    requires Within(Preparation(), whole, 0)
    ensures |whole| >= 12 && |Preparation()| == 12
    ensures whole[8] == Reported(Verifying) && whole[9] == ChecksPassed && whole[10] == Reported(Publishing) && whole[11] == EvidenceBound
  {
    var p := Preparation();
    forall k | 0 <= k < 12 ensures whole[k] == p[k] { assert whole[0 + k] == p[k]; }
  }

  // ----- the order of a whole run -----

  /** The stages of a task in the order they are to happen in. */
  function Stage(e: Effect): nat {
    match e
    case Resolved => 1
    case Acquired => 2
    case Fetched => 3
    case WorkspaceMade => 4
    case Reused => 5
    case Repaired => 6
    case Reported(s) => if s.Running? then 7 else if s.Verifying? then 11 else 13
    case Instructed => 8
    case Analyzed => 9
    case Modified => 10
    case ChecksPassed => 12
    case EvidenceBound => 14
    case PassAsserted => 15
    case CommitMade(_) => 16
    case CommitRecorded(_) => 17
    case CommitAsserted(_) => 19
    case Pushed(_) => 21
    case RemoteConfirmed(_) => 22
    case ConfirmationRecorded(_) => 23
    case Released => 25
    case PrEnsured(_) => 27
    case CiObserved(_) => 28
    case CompletionAsked => 29
    case Audited(event) => Noted(event)
  }

  function Noted(event: string): nat {
    if event == "COMMIT_CREATED" then 18
    else if event == "PUSH_STARTED" then 20
    else if event == "REMOTE_PUSH_CONFIRMED" then 24
    else if event == "REPO_LOCK_RELEASED" then 26
    else if event == "REPAIR_CYCLE_COMPLETED" then 30
    else 0
  }

  predicate Rising(log: seq<Effect>) {
    forall i, j :: 0 <= i < j < |log| ==> Stage(log[i]) < Stage(log[j])
  }

  predicate From(log: seq<Effect>, low: nat, high: nat) {
    forall e :: e in log ==> low <= Stage(e) < high
  }

  lemma {:induction false} RisingJoin(a: seq<Effect>, b: seq<Effect>, low: nat, middle: nat, high: nat)
    requires Rising(a) && Rising(b) && From(a, low, middle) && From(b, middle, high) && low <= middle <= high
    ensures Rising(a + b) && From(a + b, low, high)
  {
    forall k | 0 <= k < |a| ensures a[k] in a { }
    forall k | 0 <= k < |b| ensures b[k] in b { }
  }

  lemma {:induction false} Notes()
    ensures Noted("REPAIR_CYCLE_STARTED") == 0 && Noted("COMMIT_CREATED") == 18 && Noted("PUSH_STARTED") == 20
    ensures Noted("REMOTE_PUSH_CONFIRMED") == 24 && Noted("REPO_LOCK_RELEASED") == 26 && Noted("REPAIR_CYCLE_COMPLETED") == 30
  {
  }

  /** Each effect before the next. */
  predicate Adjacent(log: seq<Effect>) {
    forall i :: 0 <= i < |log| - 1 ==> Stage(log[i]) < Stage(log[i + 1])
  }

  lemma {:induction false} AdjacentRises(log: seq<Effect>)
    requires Adjacent(log)
    ensures Rising(log)
    ensures log != [] ==> From(log, Stage(log[0]), Stage(log[|log| - 1]) + 1)
  {
    hide Stage;
    if |log| > 1 {
      var n := |log| - 1;
      AdjacentRises(log[..n]);
      assert Stage(log[n - 1]) < Stage(log[n - 1 + 1]);
      forall k | 0 <= k < n ensures log[k] in log[..n] { assert log[..n][k] == log[k]; }
      forall i, j | 0 <= i < j < |log| ensures Stage(log[i]) < Stage(log[j]) {
        if j < n { assert log[..n][i] == log[i] && log[..n][j] == log[j]; }
      }
    }
  }

  const FIRST_HALF: seq<Effect> := [Resolved, Acquired, Fetched, WorkspaceMade, Reported(Running), Instructed]
  const SECOND_HALF: seq<Effect> := [Analyzed, Modified, Reported(Verifying), ChecksPassed, Reported(Publishing), EvidenceBound]

  lemma {:induction false} FirstHalfRises()
    ensures Rising(FIRST_HALF) && From(FIRST_HALF, 1, 9)
  {
    hide Noted, Rising, From;
    assert Adjacent(FIRST_HALF);
    AdjacentRises(FIRST_HALF);
  }

  lemma {:induction false} SecondHalfRises()
    ensures Rising(SECOND_HALF) && From(SECOND_HALF, 9, 15)
  {
    hide Noted, Rising, From;
    assert Adjacent(SECOND_HALF);
    AdjacentRises(SECOND_HALF);
  }

  lemma {:induction false} PreparationRises()
    ensures Rising(Preparation()) && From(Preparation(), 1, 15)
  {
    hide Stage, Rising, From;
    FirstHalfRises();
    SecondHalfRises();
    RisingJoin(FIRST_HALF, SECOND_HALF, 1, 9, 15);
    assert Preparation() == FIRST_HALF + SECOND_HALF;
  }

  lemma {:induction false} CommitRises(sha: string, asserts: bool)
    ensures Rising(ToCommit(sha, asserts)) && From(ToCommit(sha, asserts), 15, 20)
  {
    hide Noted, Rising;
    Notes();
    assert Adjacent(ToCommit(sha, asserts));
    AdjacentRises(ToCommit(sha, asserts));
  }

  lemma {:induction false} ReleaseRises(sha: string)
    ensures Rising(ToRelease(sha)) && From(ToRelease(sha), 20, 27)
  {
    hide Noted, Rising, From;
    Notes();
    assert Adjacent(ToRelease(sha));
    AdjacentRises(ToRelease(sha));
  }

  lemma {:induction false} ClosingRises(sha: string, outcome: CiOutcome)
    ensures Rising(Closing(sha, outcome)) && From(Closing(sha, outcome), 27, 30)
  {
    hide Noted, Rising;
    Notes();
    assert Adjacent(Closing(sha, outcome));
    AdjacentRises(Closing(sha, outcome));
  }

  lemma {:induction false} RepairRises(sha: string, outcome: CiOutcome)
    ensures Rising(WholeRepair(sha, outcome))
  {
    hide Noted, Rising, From;
    Notes();
    assert Adjacent(WholeRepair(sha, outcome));
    AdjacentRises(WholeRepair(sha, outcome));
  }

  lemma {:induction false} WholeRises(sha: string, asserts: bool, outcome: CiOutcome)
    ensures Rising(WholeRun(sha, asserts, outcome))
  {
    hide Preparation, ToCommit, ToRelease, Closing, Rising, From;
    PreparationRises();
    CommitRises(sha, asserts);
    ReleaseRises(sha);
    ClosingRises(sha, outcome);
    RisingJoin(ToCommit(sha, asserts), ToRelease(sha), 15, 20, 27);
    RisingJoin(Publication(sha, asserts), Closing(sha, outcome), 15, 27, 30);
    RisingJoin(Preparation(), Publication(sha, asserts) + Closing(sha, outcome), 1, 15, 30);
  }

  lemma {:induction false} EarlierStage(whole: seq<Effect>, e: Effect, f: Effect, n: nat)
    requires Rising(whole) && e in whole && Stage(e) < Stage(f) && n <= |whole|
    ensures Before(whole[..n], e, f)
  {
    var i :| 0 <= i < |whole| && whole[i] == e;
    forall j | 0 <= j < n && whole[..n][j] == f ensures e in whole[..n][..j] {
      assert i < j;
      assert whole[..n][..j][i] == e;
    }
  }

  lemma {:induction false} NotYet(whole: seq<Effect>, k: nat, done: nat)
    requires Rising(whole) && k < |whole| && done <= k
    ensures whole[k] !in whole[..done]
  {
    forall j | 0 <= j < done ensures whole[..done][j] != whole[k] {
      assert Stage(whole[j]) < Stage(whole[k]);
    }
  }

  // ----- what the beginning of a whole run implies -----

  function Count(log: seq<Effect>, e: Effect): nat {
    if log == [] then 0 else (if log[0] == e then 1 else 0) + Count(log[1..], e)
  }

  /** `e` comes before every `f`. */
  predicate Before(log: seq<Effect>, e: Effect, f: Effect) {
    forall j :: 0 <= j < |log| && log[j] == f ==> e in log[..j]
  }

  /** A beginning inherits order and bounds from the whole. */
  lemma {:induction false} BeginningsInherit(whole: seq<Effect>, n: nat, e: Effect, f: Effect)
    requires n <= |whole|
    ensures Before(whole, e, f) ==> Before(whole[..n], e, f)
    ensures Count(whole[..n], e) <= Count(whole, e)
  {
    if Before(whole, e, f) {
      forall j | 0 <= j < n && whole[..n][j] == f ensures e in whole[..n][..j] {
        assert whole[..n][..j] == whole[..j];
      }
    }
    CountTake(whole, n, e);
  }

  lemma {:induction false} CountTake(whole: seq<Effect>, n: nat, e: Effect)
    requires n <= |whole|
    ensures Count(whole[..n], e) <= Count(whole, e)
  {
    if n > 0 {
      assert whole[..n][1..] == whole[1..][..n - 1];
      CountTake(whole[1..], n - 1, e);
    }
  }

  lemma {:induction false} OrderSplit(a: seq<Effect>, b: seq<Effect>, e: Effect, f: Effect)
    requires e in a && f !in a
    ensures Before(a + b, e, f)
  {
    forall j | 0 <= j < |a| ensures (a + b)[j] != f { assert (a + b)[j] == a[j] && a[j] in a; }
    forall j | 0 <= j < |a + b| && (a + b)[j] == f ensures e in (a + b)[..j] {
      assert (a + b)[..j] == a + b[..j - |a|];
    }
  }

  lemma {:induction false} CountSplit(a: seq<Effect>, b: seq<Effect>, e: Effect)
    ensures Count(a + b, e) == Count(a, e) + Count(b, e)
  {
    if a == [] {
      assert a + b == b;
    } else {
      assert (a + b)[1..] == a[1..] + b;
      CountSplit(a[1..], b, e);
    }
  }

  lemma {:induction false} CountNone(a: seq<Effect>, e: Effect)
    requires e !in a
    ensures Count(a, e) == 0
  {
    if a != [] { CountNone(a[1..], e); }
  }

  /** A whole run, cut just before the release. */
  lemma {:induction false} CutAtRelease(sha: string, asserts: bool, outcome: CiOutcome)
    returns (before: seq<Effect>, after: seq<Effect>)
    ensures WholeRun(sha, asserts, outcome) == before + ([Released] + after)
    ensures before == Preparation() + (ToCommit(sha, asserts) + ToRelease(sha)[..5])
    ensures after == [Audited("REPO_LOCK_RELEASED")] + Closing(sha, outcome)
  {
    before := Preparation() + (ToCommit(sha, asserts) + ToRelease(sha)[..5]);
    after := [Audited("REPO_LOCK_RELEASED")] + Closing(sha, outcome);
    assert ToRelease(sha) == ToRelease(sha)[..5] + ([Released] + [Audited("REPO_LOCK_RELEASED")]);
  }

  lemma {:induction false} AroundRelease(sha: string, asserts: bool, outcome: CiOutcome)
    ensures var before := Preparation() + (ToCommit(sha, asserts) + ToRelease(sha)[..5]);
            && Released !in before && RemoteConfirmed(sha) in before && PassAsserted in before
            && (asserts ==> CommitAsserted(sha) in before)
            && PrEnsured(sha) !in before && (forall o :: CiObserved(o) !in before) && CompletionAsked !in before
            && (forall s :: RemoteConfirmed(s) in before ==> s == sha)
    ensures Released !in [Audited("REPO_LOCK_RELEASED")] + Closing(sha, outcome)
  {
    var (p, c, r) := (Preparation(), ToCommit(sha, asserts), ToRelease(sha)[..5]);
    PreparationOnly();
    CommitOnly(sha, asserts);
    assert r == [Audited("PUSH_STARTED"), Pushed(sha), RemoteConfirmed(sha), ConfirmationRecorded(sha), Audited("REMOTE_PUSH_CONFIRMED")];
    assert r[2] == RemoteConfirmed(sha);
    hide Preparation, ToCommit, ToRelease;
  }

  lemma {:induction false} PreparationOnly()
    ensures forall e :: e in Preparation() ==>
              !e.Released? && !e.RemoteConfirmed? && !e.PrEnsured? && !e.CiObserved? && !e.CompletionAsked?
  {
  }

  lemma {:induction false} CommitOnly(sha: string, asserts: bool)
    ensures forall e :: e in ToCommit(sha, asserts) ==>
              !e.Released? && !e.RemoteConfirmed? && !e.PrEnsured? && !e.CiObserved? && !e.CompletionAsked?
    ensures PassAsserted in ToCommit(sha, asserts) && (asserts ==> CommitAsserted(sha) in ToCommit(sha, asserts))
  {
    assert ToCommit(sha, asserts)[0] == PassAsserted;
    if asserts { assert ToCommit(sha, asserts)[4] == CommitAsserted(sha); }
  }

  /** Whatever ran: the lease is released at most once, only after the remote confirmed the very sha
      that passed the checks on the commit, and pull request, CI and completion come only after it. */
  lemma {:induction false} ReleaseRules(sha: string, asserts: bool, outcome: CiOutcome, n: nat)
    requires n <= |WholeRun(sha, asserts, outcome)|
    ensures var log := WholeRun(sha, asserts, outcome)[..n];
            && Count(log, Released) <= 1
            && Before(log, RemoteConfirmed(sha), Released) && Before(log, PassAsserted, Released)
            && (asserts ==> Before(log, CommitAsserted(sha), Released))
            && Before(log, Released, PrEnsured(sha)) && Before(log, Released, CiObserved(outcome)) && Before(log, Released, CompletionAsked)
  {
    hide Closing, Preparation, ToCommit, ToRelease;
    var whole := WholeRun(sha, asserts, outcome);
    var before, after := CutAtRelease(sha, asserts, outcome);
    AroundRelease(sha, asserts, outcome);
    hide WholeRun;
    var rest := [Released] + after;
    OrderSplit(before, rest, RemoteConfirmed(sha), Released);
    OrderSplit(before, rest, PassAsserted, Released);
    if asserts { OrderSplit(before, rest, CommitAsserted(sha), Released); }
    var through := before + [Released];
    assert whole == through + after;
    OrderSplit(through, after, Released, PrEnsured(sha));
    OrderSplit(through, after, Released, CiObserved(outcome));
    OrderSplit(through, after, Released, CompletionAsked);
    CountSplit(before, rest, Released);
    CountNone(before, Released);
    CountNone(after, Released);
    assert rest[1..] == after;
    BeginningsInherit(whole, n, RemoteConfirmed(sha), Released);
    BeginningsInherit(whole, n, PassAsserted, Released);
    BeginningsInherit(whole, n, CommitAsserted(sha), Released);
    BeginningsInherit(whole, n, Released, PrEnsured(sha));
    BeginningsInherit(whole, n, Released, CiObserved(outcome));
    BeginningsInherit(whole, n, Released, CompletionAsked);
  }

  /** The same for a repair. */
  lemma {:induction false} RepairReleaseRules(sha: string, outcome: CiOutcome, n: nat)
    requires n <= |WholeRepair(sha, outcome)|
    ensures var log := WholeRepair(sha, outcome)[..n];
            && Count(log, Released) <= 1
            && Before(log, RemoteConfirmed(sha), Released) && Before(log, ChecksPassed, Released)
            && Before(log, Released, CiObserved(outcome))
  {
    var whole := WholeRepair(sha, outcome);
    var before: seq<Effect> :=
      [Audited("REPAIR_CYCLE_STARTED"), Acquired, Reused, Repaired, ChecksPassed, Pushed(sha), RemoteConfirmed(sha)];
    var after: seq<Effect> := [CiObserved(outcome), Audited("REPAIR_CYCLE_COMPLETED")];
    assert whole == before + ([Released] + after);
    assert before[4] == ChecksPassed && before[6] == RemoteConfirmed(sha);
    assert Released !in before && Released !in after && CiObserved(outcome) !in before + [Released];
    hide WholeRepair;
    OrderSplit(before, [Released] + after, RemoteConfirmed(sha), Released);
    OrderSplit(before, [Released] + after, ChecksPassed, Released);
    assert whole == (before + [Released]) + after;
    OrderSplit(before + [Released], after, Released, CiObserved(outcome));
    CountSplit(before, [Released] + after, Released);
    CountNone(before, Released);
    CountNone(after, Released);
    assert ([Released] + after)[1..] == after;
    BeginningsInherit(whole, n, RemoteConfirmed(sha), Released);
    BeginningsInherit(whole, n, ChecksPassed, Released);
    BeginningsInherit(whole, n, Released, CiObserved(outcome));
  }

  // ----- what comes before what -----

  /** The commit an effect speaks of, if any, is that of the run. */
  predicate About(e: Effect, sha: string) {
    match e
    case CommitMade(s) => s == sha
    case CommitRecorded(s) => s == sha
    case CommitAsserted(s) => s == sha
    case Pushed(s) => s == sha
    case RemoteConfirmed(s) => s == sha
    case ConfirmationRecorded(s) => s == sha
    case PrEnsured(s) => s == sha
    case _ => true
  }

  lemma {:induction false} PublishesOne(sha: string, asserts: bool, outcome: CiOutcome)
    ensures forall e :: e in ToCommit(sha, asserts) ==> About(e, sha)
    ensures forall e :: e in ToRelease(sha) ==> About(e, sha)
  {
  }

  lemma {:induction false} TouchesOne(sha: string, outcome: CiOutcome)
    ensures forall e :: e in Preparation() ==> About(e, sha)
    ensures forall e :: e in Closing(sha, outcome) ==> About(e, sha)
    ensures forall e :: e in WholeRepair(sha, outcome) ==> About(e, sha)
  {
  }

  lemma {:induction false} OneCommitOnly(sha: string, asserts: bool, outcome: CiOutcome)
    ensures forall e :: e in WholeRun(sha, asserts, outcome) ==> About(e, sha)
  {
    hide Preparation, ToCommit, ToRelease, Closing, About;
    PublishesOne(sha, asserts, outcome);
    TouchesOne(sha, outcome);
  }

  lemma {:induction false} HappensInWhole(sha: string, asserts: bool, outcome: CiOutcome)
    ensures var whole := WholeRun(sha, asserts, outcome);
            && Acquired in whole && Modified in whole && ChecksPassed in whole && EvidenceBound in whole && PassAsserted in whole
            && CommitMade(sha) in whole && CommitRecorded(sha) in whole && (asserts ==> CommitAsserted(sha) in whole)
            && Pushed(sha) in whole && PrEnsured(sha) in whole && CiObserved(outcome) in whole
  {
    hide WholeRun, Closing, ToCommit;
    var whole := WholeRun(sha, asserts, outcome);
    var c := Positions(sha, asserts, outcome);
    var e := Closing(sha, outcome);
    Ends(sha, outcome);
    forall k | 0 <= k < |e| ensures e[k] in whole { assert whole[19 + c + k] == e[k]; }
  }

  lemma {:induction false} Ends(sha: string, outcome: CiOutcome)
    ensures PrEnsured(sha) in Closing(sha, outcome) && CiObserved(outcome) in Closing(sha, outcome)
  {
    var e := Closing(sha, outcome);
    assert e[0] == PrEnsured(sha) && e[1] == CiObserved(outcome);
  }

  /** However far a run gets: nothing is modified without the lease; the commit is made only on bound
      evidence of passed checks, pushed only when it is on record (and checked, if the check is wired);
      no other commit is touched; completion is asked for only after CI was seen to succeed. */
  lemma {:induction false} StepRules(sha: string, asserts: bool, outcome: CiOutcome, n: nat)
    requires n <= |WholeRun(sha, asserts, outcome)|
    ensures var log := WholeRun(sha, asserts, outcome)[..n];
            && Before(log, Acquired, Modified) && Before(log, Modified, ChecksPassed) && Before(log, ChecksPassed, EvidenceBound)
            && Before(log, EvidenceBound, PassAsserted) && Before(log, PassAsserted, CommitMade(sha))
            && Before(log, CommitMade(sha), CommitRecorded(sha)) && Before(log, CommitRecorded(sha), Pushed(sha))
            && (asserts ==> Before(log, CommitAsserted(sha), Pushed(sha))) && Before(log, Pushed(sha), RemoteConfirmed(sha))
            && Before(log, PrEnsured(sha), CiObserved(outcome)) && Before(log, CiObserved(outcome), CompletionAsked)
            && (CompletionAsked in log ==> outcome.Success?) && forall e :: e in log ==> About(e, sha)
  {
    hide WholeRun, Before, Rising, About;
    var whole := WholeRun(sha, asserts, outcome);
    WholeRises(sha, asserts, outcome);
    HappensInWhole(sha, asserts, outcome);
    OneCommitOnly(sha, asserts, outcome);
    CompletionAsksIff(sha, asserts, outcome);
    EarlierStage(whole, Acquired, Modified, n);
    EarlierStage(whole, Modified, ChecksPassed, n);
    EarlierStage(whole, ChecksPassed, EvidenceBound, n);
    EarlierStage(whole, EvidenceBound, PassAsserted, n);
    EarlierStage(whole, PassAsserted, CommitMade(sha), n);
    EarlierStage(whole, CommitMade(sha), CommitRecorded(sha), n);
    EarlierStage(whole, CommitRecorded(sha), Pushed(sha), n);
    if asserts { EarlierStage(whole, CommitAsserted(sha), Pushed(sha), n); }
    EarlierStage(whole, Pushed(sha), RemoteConfirmed(sha), n);
    EarlierStage(whole, PrEnsured(sha), CiObserved(outcome), n);
    EarlierStage(whole, CiObserved(outcome), CompletionAsked, n);
    assert forall e :: e in whole[..n] ==> e in whole;
  }

  /** The same for a repair: it works under the lease and pushes only what passed the checks. */
  lemma {:induction false} RepairStepRules(sha: string, outcome: CiOutcome, n: nat)
    requires n <= |WholeRepair(sha, outcome)|
    ensures var log := WholeRepair(sha, outcome)[..n];
            && Before(log, Acquired, Repaired) && Before(log, Repaired, ChecksPassed) && Before(log, ChecksPassed, Pushed(sha))
            && Before(log, Pushed(sha), RemoteConfirmed(sha)) && forall e :: e in log ==> About(e, sha)
  {
    var whole := WholeRepair(sha, outcome);
    RepairStages(sha, outcome);
    hide WholeRepair, Before, Rising, About;
    RepairRises(sha, outcome);
    TouchesOne(sha, outcome);
    assert whole[1] in whole && whole[3] in whole && whole[4] in whole && whole[5] in whole;
    EarlierStage(whole, Acquired, Repaired, n);
    EarlierStage(whole, Repaired, ChecksPassed, n);
    EarlierStage(whole, ChecksPassed, Pushed(sha), n);
    EarlierStage(whole, Pushed(sha), RemoteConfirmed(sha), n);
    assert forall e :: e in whole[..n] ==> e in whole;
  }

  // ----- the check on the commit -----

  lemma {:induction false} CommitUnchecked(sha: string)
    ensures CommitAsserted(sha) !in Preparation() + (ToCommit(sha, false) + ToRelease(sha)[..5])
  {
    assert forall e :: e in ToRelease(sha)[..5] ==> e in ToRelease(sha);
    assert CommitAsserted(sha) !in Preparation() && CommitAsserted(sha) !in ToCommit(sha, false) && CommitAsserted(sha) !in ToRelease(sha);
  }

  /** Whether a release in the beginning of a run was preceded by the check on its commit: exactly if
      the check is wired, or the beginning stops short of the release. */
  lemma {:induction false} CommitCheckIff(sha: string, asserts: bool, outcome: CiOutcome, n: nat)
    requires n <= |WholeRun(sha, asserts, outcome)|
    ensures var log := WholeRun(sha, asserts, outcome)[..n];
            Before(log, CommitAsserted(sha), Released) <==> asserts || Released !in log
  {
    hide Closing, Preparation, ToCommit, ToRelease, WholeRun, Before;
    var log := WholeRun(sha, asserts, outcome)[..n];
    ReleaseRules(sha, asserts, outcome, n);
    var before, after := CutAtRelease(sha, asserts, outcome);
    if Released !in log {
      NothingToPrecede(log, CommitAsserted(sha), Released);
    } else if !asserts {
      AroundRelease(sha, asserts, outcome);
      CommitUnchecked(sha);
      UncheckedRelease(before, after, CommitAsserted(sha), n);
    }
  }

  lemma {:induction false} NothingToPrecede(log: seq<Effect>, e: Effect, f: Effect)
    requires f !in log
    ensures Before(log, e, f)
  {
  }

  /** A release that nothing like `e` precedes. */
  lemma {:induction false} UncheckedRelease(before: seq<Effect>, after: seq<Effect>, e: Effect, n: nat)
    requires Released !in before && Released !in after && e !in before
    requires n <= |before + ([Released] + after)| && Released in (before + ([Released] + after))[..n]
    ensures !Before((before + ([Released] + after))[..n], e, Released)
  {
    var log := (before + ([Released] + after))[..n];
    var j :| 0 <= j < n && log[j] == Released;
    OnlyRelease(before, after);
    assert log[..j] == before;
  }

  lemma {:induction false} OnlyRelease(before: seq<Effect>, after: seq<Effect>)
    requires Released !in before && Released !in after
    ensures var w := before + ([Released] + after); forall j :: 0 <= j < |w| && w[j] == Released ==> j == |before|
  {
    var w := before + ([Released] + after);
    forall j | 0 <= j < |w| && j != |before| ensures w[j] != Released {
      if j < |before| {
        assert w[j] == before[j];
      } else {
        assert w[j] == after[j - |before| - 1];
      }
    }
  }

  /** The release comes only after the check on the commit, whatever fails and whenever, if and only if
      the check is wired. */
  lemma {:induction false} CheckedIff(sha: string, asserts: bool, outcome: CiOutcome)
    ensures asserts <==>
            forall n: nat | n <= |WholeRun(sha, asserts, outcome)| ::
              Before(WholeRun(sha, asserts, outcome)[..n], CommitAsserted(sha), Released)
  {
    hide Closing, Preparation, ToCommit, ToRelease, WholeRun, Before;
    var whole := WholeRun(sha, asserts, outcome);
    forall n: nat | n <= |whole|
      ensures Before(whole[..n], CommitAsserted(sha), Released) <==> asserts || Released !in whole[..n]
    {
      CommitCheckIff(sha, asserts, outcome, n);
    }
    var before, after := CutAtRelease(sha, asserts, outcome);
    assert whole[..|whole|] == whole && whole[|before|] == Released;
  }

  /** A repair releases the lease although no check has seen its commit: nothing like it is among its
      effects, so a beginning of a repair keeps the rule exactly if it stops short of the release. */
  lemma {:induction false} RepairHasNoCommitCheck(sha: string, outcome: CiOutcome, n: nat)
    requires n <= |WholeRepair(sha, outcome)|
    ensures Released in WholeRepair(sha, outcome) && forall s :: CommitAsserted(s) !in WholeRepair(sha, outcome)
    ensures var log := WholeRepair(sha, outcome)[..n];
            forall s :: Before(log, CommitAsserted(s), Released) <==> Released !in log
  {
    var whole := WholeRepair(sha, outcome);
    RepairStages(sha, outcome);
    assert whole[7] == Released;
    assert forall s :: CommitAsserted(s) !in whole;
    hide WholeRepair;
    if Released in whole[..n] {
      var j :| 0 <= j < n && whole[..n][j] == Released;
      assert forall s :: CommitAsserted(s) !in whole[..n][..j];
    }
  }
}
