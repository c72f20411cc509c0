/** The repository lock as interleaved steps: any number of processes acquire, keep alive and release
    leases made of a lock file and a table row, and may crash between any two steps. */
module RepoLock {
  import opened Wrappers

  type Token = string
  type Task = string

  const TTL := 60_000

  datatype Status = WaitingRepoLock | Preparing | Running | Verifying | Publishing | NeedsRecovery | OtherStatus(name: string)

  datatype LockFile = LockFile(creator: Token, content: Option<Token>)
  datatype Lease = Lease(owner: Task, token: Token, heartbeatAt: int, leaseUntil: int)
  datatype TaskRow = TaskRow(repo: nat, status: Status)

  // ----- the two tables -----

  /** The leases and tasks, and the repositories there are. */
  datatype Tables = Tables(repos: set<nat>, locks: map<nat, Lease>, tasks: map<Task, TaskRow>)

  /** The foreign keys of a lease. */
  predicate Known(db: Tables, repo: nat, task: Task) {
    repo in db.repos && task in db.tasks
  }

  /** The insert and the task transition commit together or not at all. */
  predicate Prepares(db: Tables, repo: nat, task: Task) {
    && repo !in db.locks && Known(db, repo, task)
    && db.tasks[task] == TaskRow(repo, WaitingRepoLock)
  }

  function Prepared(db: Tables, repo: nat, lease: Lease): Tables
    requires lease.owner in db.tasks
  {
    Tables(db.repos, db.locks[repo := lease], db.tasks[lease.owner := db.tasks[lease.owner].(status := Preparing)])
  }

  predicate Owns(db: Tables, repo: nat, token: Token) {
    repo in db.locks && db.locks[repo].token == token
  }

  function Beaten(db: Tables, repo: nat, token: Token, now: int): Tables {
    if Owns(db, repo, token)
    then db.(locks := db.locks[repo := db.locks[repo].(heartbeatAt := now, leaseUntil := now + TTL)])
    else db
  }

  function Deleted(db: Tables, repo: nat, token: Token): Tables {
    if Owns(db, repo, token) then db.(locks := db.locks - {repo}) else db
  }

  predicate Recoverable(s: Status) {
    s.WaitingRepoLock? || s.Preparing? || s.Running? || s.Verifying? || s.Publishing?
  }

  function TowardRecovery(db: Tables, task: Task): Tables {
    if task in db.tasks && Recoverable(db.tasks[task].status)
    then db.(tasks := db.tasks[task := db.tasks[task].(status := NeedsRecovery)])
    else db
  }

  // ----- attempts -----

  /** Where one call of `acquire`, or the lease it returned, stands. */
  datatype Phase =
    | Opening     // about to create the lock file
    | Created     // the file exists, nothing is written yet
    | Written     // the file carries the token
    | Undoing     // the transaction failed; about to remove the file
    | Held        // the lease is out
    | Deleting    // released: the row is gone, the file not yet read
    | Confirmed   // released: the file was read and carries the token
    | Over

  datatype Attempt = Attempt(repo: nat, task: Task, phase: Phase, leased: bool)

  datatype World = World(files: map<nat, LockFile>, db: Tables, attempts: map<Token, Attempt>)

  datatype Step =
    | Begin(token: Token, repo: nat, task: Task)
    | Open(token: Token)
    | Write(token: Token, fails: bool)
    | Insert(token: Token, now: int, fails: bool)
    | Undo(token: Token)
    | Beat(token: Token, now: int, fails: bool)
    | ReleaseRow(token: Token, fails: bool)
    | ReleaseRead(token: Token)
    | ReleaseRemove(token: Token)
    | Crash(token: Token)
    | Progress(task: Task, row: TaskRow)

  function Wanted(e: Step): Phase {
    match e
    case Open(_) => Opening
    case Write(_, _) => Created
    case Insert(_, _, _) => Written
    case Undo(_) => Undoing
    case ReleaseRow(_, _) => Held
    case ReleaseRead(_) => Deleting
    case ReleaseRemove(_) => Confirmed
    case _ => Over
  }

  /** Tokens are fresh random ids; a heartbeat may still be running after its lease is gone. */
  predicate Enabled(w: World, e: Step) {
    match e
    case Begin(t, _, _) => t !in w.attempts
    case Progress(_, _) => true
    case Beat(t, _, _) => t in w.attempts && w.attempts[t].leased
    case Crash(t) => t in w.attempts
    case _ => e.token in w.attempts && w.attempts[e.token].phase == Wanted(e)
  }

  function At(w: World, t: Token, p: Phase): World
    requires t in w.attempts
  {
    w.(attempts := w.attempts[t := w.attempts[t].(phase := p)])
  }

  function Next(w: World, e: Step): World
    requires Enabled(w, e)
  {
    match e
    case Begin(t, repo, task) => w.(attempts := w.attempts[t := Attempt(repo, task, Opening, false)])
    case Progress(task, row) => w.(db := w.db.(tasks := w.db.tasks[task := row]))
    case Open(t) =>
      var r := w.attempts[t].repo;
      if r in w.files then At(w, t, Over)
      else At(w.(files := w.files[r := LockFile(t, None)]), t, Created)
    case Write(t, fails) =>
      var r := w.attempts[t].repo;
      if fails then At(w, t, Over)
      else At(w.(files := if r in w.files then w.files[r := w.files[r].(content := Some(t))] else w.files), t, Written)
    case Insert(t, now, fails) =>
      var a := w.attempts[t];
      if fails || !Prepares(w.db, a.repo, a.task) then At(w, t, Undoing)
      else
        w.(db := Prepared(w.db, a.repo, Lease(a.task, t, now, now + TTL)),
           attempts := w.attempts[t := a.(phase := Held, leased := true)])
    case Undo(t) => At(w.(files := w.files - {w.attempts[t].repo}), t, Over)
    case Beat(t, now, fails) =>
      if !fails && Owns(w.db, w.attempts[t].repo, t) then w.(db := Beaten(w.db, w.attempts[t].repo, t, now))
      else w.(db := TowardRecovery(w.db, w.attempts[t].task))
    case ReleaseRow(t, fails) =>
      if fails then At(w, t, Over) else At(w.(db := Deleted(w.db, w.attempts[t].repo, t)), t, Deleting)
    case ReleaseRead(t) =>
      var r := w.attempts[t].repo;
      if r in w.files && w.files[r].content == Some(t) then At(w, t, Confirmed) else At(w, t, Over)
    case ReleaseRemove(t) => At(w.(files := w.files - {w.attempts[t].repo}), t, Over)
    case Crash(t) => At(w, t, Over)
  }

  ghost predicate Possible(w: World, steps: seq<Step>)
    decreases |steps|
  {
    steps == [] || (Enabled(w, steps[0]) && Possible(Next(w, steps[0]), steps[1..]))
  }

  function Run(w: World, steps: seq<Step>): World
    requires Possible(w, steps)
    decreases |steps|
  {
    if steps == [] then w else Run(Next(w, steps[0]), steps[1..])
  }

  lemma {:induction false} NoSteps(w: World)
    ensures Possible(w, []) && Run(w, []) == w
  {
  }

  lemma {:induction false} Longer(w: World, steps: seq<Step>, e: Step)
    requires Possible(w, steps) && Enabled(Run(w, steps), e)
    ensures Possible(w, steps + [e]) && Run(w, steps + [e]) == Next(Run(w, steps), e)
    decreases |steps|
  {
    if steps == [] {
      assert (steps + [e])[1..] == [];
    } else {
      assert (steps + [e])[1..] == steps[1..] + [e];
      Longer(Next(w, steps[0]), steps[1..], e);
    }
  }

  // ----- the invariant -----

  predicate Owner(p: Phase) {
    !p.Opening? && !p.Over?
  }

  /** A file was made by the attempt it names, which is past creating it, and carries that token once written. */
  predicate FileFits(w: World, r: nat) {
    r in w.files ==>
      && w.files[r].creator in w.attempts
      && w.attempts[w.files[r].creator].repo == r && !w.attempts[w.files[r].creator].phase.Opening?
      && w.files[r].content in {None, Some(w.files[r].creator)}
  }

  /** An attempt between its creation of the file and its removal is the file's maker. */
  predicate AttemptFits(w: World, t: Token) {
    t in w.attempts ==>
      var a := w.attempts[t];
      && (Owner(a.phase) ==> a.repo in w.files && w.files[a.repo].creator == t)
      && (Owner(a.phase) && !a.phase.Created? ==> w.files[a.repo].content == Some(t))
      && (a.phase.Opening? || a.phase.Created? || a.phase.Written? || a.phase.Undoing? ==> !a.leased)
      && (a.phase.Held? || a.phase.Deleting? || a.phase.Confirmed? ==> a.leased)
  }

  /** A row is backed by a file with its token, and by the attempt that inserted it. */
  predicate RowFits(w: World, r: nat) {
    r in w.db.locks ==>
      var t := w.db.locks[r].token;
      && r in w.files && w.files[r] == LockFile(t, Some(t))
      && t in w.attempts && w.attempts[t].repo == r && w.attempts[t].leased
      && w.attempts[t].task == w.db.locks[r].owner
      && (w.attempts[t].phase.Held? || w.attempts[t].phase.Over?)
  }

  ghost predicate Inv(w: World) {
    && (forall r :: FileFits(w, r))
    && (forall t :: AttemptFits(w, t))
    && (forall r :: RowFits(w, r))
  }

  /** The repository a step is about; None for one that touches no lock. */
  function Place(w: World, e: Step): Option<nat>
    requires Enabled(w, e)
  {
    match e
    case Begin(_, _, _) => None
    case Progress(_, _) => None
    case _ => Some(w.attempts[e.token].repo)
  }

  lemma {:induction false} OtherPlacesUntouched(w: World, e: Step, r: nat)
    requires Enabled(w, e) && Place(w, e) != Some(r)
    ensures r in Next(w, e).files <==> r in w.files
    ensures r in w.files ==> Next(w, e).files[r] == w.files[r]
    ensures r in Next(w, e).db.locks <==> r in w.db.locks
    ensures r in w.db.locks ==> Next(w, e).db.locks[r] == w.db.locks[r]
  {
  }

  /** Attempts other than the step's own keep everything; its own keeps its repository and task. */
  lemma {:induction false} AttemptsKept(w: World, e: Step, t: Token)
    requires Enabled(w, e) && t in w.attempts
    ensures t in Next(w, e).attempts
    ensures Next(w, e).attempts[t].repo == w.attempts[t].repo && Next(w, e).attempts[t].task == w.attempts[t].task
    ensures w.attempts[t].leased ==> Next(w, e).attempts[t].leased
    ensures e.Progress? || t != e.token ==> Next(w, e).attempts[t] == w.attempts[t]
  {
  }

  lemma {:induction false} FileStaysFit(w: World, e: Step, r: nat)
    requires Enabled(w, e) && FileFits(w, r) && (Place(w, e) == Some(r) ==> AttemptFits(w, e.token))
    ensures FileFits(Next(w, e), r)
  {
    if Place(w, e) != Some(r) { OtherPlacesUntouched(w, e, r); }
    if r in w.files { AttemptsKept(w, e, w.files[r].creator); }
  }

  lemma {:induction false} OwnAttemptFits(w: World, e: Step)
    requires Enabled(w, e) && !e.Progress? && AttemptFits(w, e.token)
    ensures AttemptFits(Next(w, e), e.token)
  {
  }

  lemma {:induction false} OtherAttemptFits(w: World, e: Step, t: Token)
    requires Enabled(w, e) && AttemptFits(w, t) && t in w.attempts
    requires e.Progress? || (t != e.token && AttemptFits(w, e.token))
    ensures AttemptFits(Next(w, e), t)
  {
    AttemptsKept(w, e, t);
    if Place(w, e) != Some(w.attempts[t].repo) { OtherPlacesUntouched(w, e, w.attempts[t].repo); }
  }

  lemma {:induction false} AttemptStaysFit(w: World, e: Step, t: Token)
    requires Inv(w) && Enabled(w, e)
    ensures AttemptFits(Next(w, e), t)
  {
    assert AttemptFits(w, t);
    if !e.Progress? && t == e.token {
      OwnAttemptFits(w, e);
    } else if t in w.attempts {
      if !e.Progress? { assert AttemptFits(w, e.token); }
      OtherAttemptFits(w, e, t);
    }
  }

  lemma {:induction false} RowStaysFit(w: World, e: Step, r: nat)
    requires Enabled(w, e) && RowFits(w, r) && (Place(w, e) == Some(r) ==> AttemptFits(w, e.token))
    ensures RowFits(Next(w, e), r)
  {
    if r in w.db.locks { AttemptsKept(w, e, w.db.locks[r].token); }
    if Place(w, e) != Some(r) { OtherPlacesUntouched(w, e, r); }
  }

  lemma {:induction false} StepKeepsInv(w: World, e: Step)
    requires Inv(w) && Enabled(w, e)
    ensures Inv(Next(w, e))
  {
    forall r ensures FileFits(Next(w, e), r) && RowFits(Next(w, e), r) {
      assert FileFits(w, r) && RowFits(w, r);
      if Place(w, e).Some? { assert AttemptFits(w, e.token); }
      FileStaysFit(w, e, r);
      RowStaysFit(w, e, r);
    }
    forall t ensures AttemptFits(Next(w, e), t) { AttemptStaysFit(w, e, t); }
  }

  lemma {:induction false} RunsKeepInv(w: World, steps: seq<Step>)
    requires Inv(w) && Possible(w, steps)
    ensures Inv(Run(w, steps))
    decreases |steps|
  {
    if steps != [] {
      StepKeepsInv(w, steps[0]);
      RunsKeepInv(Next(w, steps[0]), steps[1..]);
    }
  }

  /** No locks and no attempts; the tasks may be anything. */
  predicate Initial(w: World) {
    w.files == map[] && w.db.locks == map[] && w.attempts == map[]
  }

  lemma {:induction false} InitialIsInv(w: World)
    requires Initial(w)
    ensures Inv(w)
  {
  }

  // ----- what every interleaving keeps -----

  /** A row with token t means a lock file with token t; and two attempts never hold one repository,
      however long ago the first one's lease expired. */
  lemma {:induction false} RowMeansFile(w: World, steps: seq<Step>, r: nat)
    requires Initial(w) && Possible(w, steps)
    requires r in Run(w, steps).db.locks
    ensures var v := Run(w, steps); r in v.files && v.files[r].content == Some(v.db.locks[r].token)
  {
    InitialIsInv(w);
    RunsKeepInv(w, steps);
    assert RowFits(Run(w, steps), r);
  }

  lemma {:induction false} OneHolder(w: World, steps: seq<Step>, s: Token, t: Token)
    requires Initial(w) && Possible(w, steps)
    requires var v := Run(w, steps);
             && s in v.attempts && t in v.attempts && v.attempts[s].repo == v.attempts[t].repo
             && Owner(v.attempts[s].phase) && Owner(v.attempts[t].phase)
    ensures s == t
  {
    InitialIsInv(w);
    RunsKeepInv(w, steps);
    assert AttemptFits(Run(w, steps), s) && AttemptFits(Run(w, steps), t);
  }

  /** A step that makes a lock file disappear is its maker's own, and no row is left behind. */
  lemma {:induction false} OnlyMakerRemovesFile(w: World, e: Step, r: nat)
    requires Inv(w) && Enabled(w, e)
    requires r in w.files && r !in Next(w, e).files
    ensures !e.Progress? && w.files[r].creator == e.token && r !in w.db.locks
  {
    if Place(w, e) != Some(r) { OtherPlacesUntouched(w, e, r); }
    assert AttemptFits(w, e.token) && RowFits(w, r);
  }

  /** A step that deletes a row, or changes who holds one, is the holder's own release. */
  lemma {:induction false} OnlyHolderDeletesRow(w: World, e: Step, r: nat)
    requires Inv(w) && Enabled(w, e) && r in w.db.locks
    ensures r !in Next(w, e).db.locks ==> e.ReleaseRow? && w.db.locks[r].token == e.token
    ensures r in Next(w, e).db.locks ==>
              Next(w, e).db.locks[r].token == w.db.locks[r].token && Next(w, e).db.locks[r].owner == w.db.locks[r].owner
  {
    if Place(w, e) != Some(r) { OtherPlacesUntouched(w, e, r); }
    assert RowFits(w, r);
    if !e.Progress? && e.token in w.attempts { assert AttemptFits(w, e.token); }
  }

  /** An insert never meets another holder's row: only the task can make it fail. */
  lemma {:induction false} InsertNeverConflicts(w: World, t: Token)
    requires Inv(w) && t in w.attempts && w.attempts[t].phase.Written?
    ensures w.attempts[t].repo !in w.db.locks
  {
    assert AttemptFits(w, t) && RowFits(w, w.attempts[t].repo);
  }

  /** A heartbeat on a lease that is still held always finds its row. */
  lemma {:induction false} HeldLeaseKeepsRow(w: World, steps: seq<Step>, t: Token)
    requires Inv(w) && Possible(w, steps)
    requires t in w.attempts && w.attempts[t].phase.Held? && Owns(w.db, w.attempts[t].repo, t)
    ensures t in Run(w, steps).attempts && Run(w, steps).attempts[t].repo == w.attempts[t].repo
    ensures Run(w, steps).attempts[t].phase.Held? ==> Owns(Run(w, steps).db, w.attempts[t].repo, t)
    decreases |steps|
  {
    if steps != [] {
      var v := Next(w, steps[0]);
      assert AttemptFits(w, t);
      StepKeepsInv(w, steps[0]);
      AttemptsKept(w, steps[0], t);
      OnlyHolderDeletesRow(w, steps[0], w.attempts[t].repo);
      if v.attempts[t].phase.Held? {
        HeldLeaseKeepsRow(v, steps[1..], t);
      } else {
        NeverHeldAgain(v, steps[1..], t);
      }
    }
  }

  /** A lease once given back, lost or crashed is never held again. */
  lemma {:induction false} NeverHeldAgain(w: World, steps: seq<Step>, t: Token)
    requires Possible(w, steps)
    requires t in w.attempts && w.attempts[t].leased && !w.attempts[t].phase.Held?
    requires Inv(w)
    ensures t in Run(w, steps).attempts && Run(w, steps).attempts[t].repo == w.attempts[t].repo
    ensures !Run(w, steps).attempts[t].phase.Held?
    decreases |steps|
  {
    assert AttemptFits(w, t);
    if steps != [] {
      AttemptsKept(w, steps[0], t);
      StepKeepsInv(w, steps[0]);
      NeverHeldAgain(Next(w, steps[0]), steps[1..], t);
    }
  }

  /** The file of an attempt that is over, with or without its row. */
  predicate Abandoned(w: World, r: nat) {
    r in w.files && w.files[r].creator in w.attempts && w.attempts[w.files[r].creator].phase.Over?
  }

  /** What a crash, a failed write or a failed release leaves behind closes the repository for good:
      no step removes the file, so no later attempt gets past creating it. */
  lemma {:induction false} AbandonedLockStays(w: World, steps: seq<Step>, r: nat)
    requires Inv(w) && Possible(w, steps)
    requires Abandoned(w, r)
    ensures r in Run(w, steps).files && Run(w, steps).files[r] == w.files[r]
    ensures r in Run(w, steps).db.locks <==> r in w.db.locks
    decreases |steps|
  {
    assert FileFits(w, r);
    if steps != [] {
      AbandonedStep(w, steps[0], r);
      StepKeepsInv(w, steps[0]);
      AbandonedLockStays(Next(w, steps[0]), steps[1..], r);
    }
  }

  lemma {:induction false} AbandonedStep(w: World, e: Step, r: nat)
    requires Inv(w) && Enabled(w, e)
    requires Abandoned(w, r)
    ensures Abandoned(Next(w, e), r) && Next(w, e).files[r] == w.files[r]
    ensures r in Next(w, e).db.locks <==> r in w.db.locks
  {
    assert FileFits(w, r);
    AttemptsKept(w, e, w.files[r].creator);
    if Place(w, e) != Some(r) {
      OtherPlacesUntouched(w, e, r);
    } else {
      assert AttemptFits(w, e.token);
    }
  }

  lemma {:induction false} FirstStep(w: World, e: Step, rest: seq<Step>)
    requires Enabled(w, e) && Possible(Next(w, e), rest)
    ensures Possible(w, [e] + rest) && Run(w, [e] + rest) == Run(Next(w, e), rest)
  {
    assert ([e] + rest)[1..] == rest;
  }

  /** The way from each phase of a file's maker to the removal of the file. */
  function Onward(t: Token, p: Phase): Step {
    match p
    case Created => Write(t, false)
    case Written => Insert(t, 0, true)
    case Held => ReleaseRow(t, false)
    case Deleting => ReleaseRead(t)
    case Confirmed => ReleaseRemove(t)
    case _ => Undo(t)
  }

  function Left(p: Phase): nat {
    match p
    case Created => 3
    case Written => 2
    case Held => 3
    case Deleting => 2
    case _ => 1
  }

  /** The maker of the file is not over. */
  predicate GoesOn(w: World, r: nat) {
    r in w.files && w.files[r].creator in w.attempts && Owner(w.attempts[w.files[r].creator].phase)
  }

  lemma {:induction false} OnwardStep(w: World, r: nat)
    requires Inv(w) && GoesOn(w, r)
    ensures var t := w.files[r].creator;
            var p := w.attempts[t].phase;
            && Enabled(w, Onward(t, p))
            && (var v := Next(w, Onward(t, p));
                r in v.files ==> GoesOn(v, r) && v.files[r].creator == t && Left(v.attempts[t].phase) < Left(p))
  {
    assert FileFits(w, r) && AttemptFits(w, w.files[r].creator);
  }

  /** As long as its maker goes on, a lock file can go away. */
  lemma {:induction false} Freeing(w: World, r: nat) returns (steps: seq<Step>)
    requires Inv(w) && GoesOn(w, r)
    ensures Possible(w, steps) && r !in Run(w, steps).files
    decreases Left(w.attempts[w.files[r].creator].phase)
  {
    hide Next, Enabled, Onward, Inv, Left;
    var t := w.files[r].creator;
    var e := Onward(t, w.attempts[t].phase);
    OnwardStep(w, r);
    StepKeepsInv(w, e);
    var rest: seq<Step> := [];
    if r in Next(w, e).files {
      rest := Freeing(Next(w, e), r);
    }
    FirstStep(w, e, rest);
    steps := [e] + rest;
  }

  lemma {:induction false} FileOf(w: World, r: nat)
    requires Inv(w)
    ensures FileFits(w, r)
  {
  }

  /** Exactly when a repository can still be freed: its file goes away in some continuation if and
      only if the attempt that made it is not over. */
  lemma {:induction false} FreedIff(w: World, r: nat)
    requires Inv(w) && r in w.files
    ensures (exists steps :: Possible(w, steps) && r !in Run(w, steps).files) <==> !Abandoned(w, r)
  {
    FileOf(w, r);
    if Abandoned(w, r) {
      forall steps | Possible(w, steps) ensures r in Run(w, steps).files { AbandonedLockStays(w, steps, r); }
    } else {
      var steps := Freeing(w, r);
      assert Possible(w, steps) && r !in Run(w, steps).files;
    }
    hide Inv;
  }

  /** It does happen: an attempt that crashes right after creating its file. */
  lemma {:induction false} CrashAbandons(w: World, t: Token, r: nat, task: Task)
    requires Initial(w)
    ensures var steps := [Begin(t, r, task), Open(t), Crash(t)];
            Possible(w, steps) && Abandoned(Run(w, steps), r) && r !in Run(w, steps).db.locks
  {
    var a := Next(w, Begin(t, r, task));
    var b := Next(a, Open(t));
    var c := Next(b, Crash(t));
    NoSteps(c);
    FirstStep(b, Crash(t), []);
    FirstStep(a, Open(t), [Crash(t)]);
    FirstStep(w, Begin(t, r, task), [Open(t), Crash(t)]);
    assert [Crash(t)] + [] == [Crash(t)];
    assert [Open(t)] + [Crash(t)] == [Open(t), Crash(t)];
    assert [Begin(t, r, task)] + [Open(t), Crash(t)] == [Begin(t, r, task), Open(t), Crash(t)];
  }
}
