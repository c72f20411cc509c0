/** The lock service and its lease object as they are written; each call is a run of the interleaved
    steps, and failures of the file system or the database may be injected at each of them. */
module RepoLockService {
  import opened Wrappers
  import opened RepoLock

  datatype LockError = RepoLocked | TaskNotWaiting | Broken

  class LockRepository {
    var db: Tables

    constructor (repos: set<nat>, tasks: map<Task, TaskRow>)
      ensures db == Tables(repos, map[], tasks)
    {
      db := Tables(repos, map[], tasks);
    }

    /** One transaction: the task transition failing takes the inserted row back. Every violated
        constraint of the insert is reported as a lock: a row that is there, or a foreign key. */
    method AcquireAndPrepare(repo: nat, lease: Lease, fails: bool) returns (r: Result<Lease, LockError>)
      modifies this
      ensures r.Ok? <==> !fails && Prepares(old(db), repo, lease.owner)
      ensures r.Ok? ==> r.value == lease && db == Prepared(old(db), repo, lease)
      ensures r.Err? ==> db == old(db)
      ensures r == Err(RepoLocked) <==> !fails && (repo in old(db).locks || repo !in old(db).repos || lease.owner !in old(db).tasks)
      ensures r.Ok? ==> lease.owner in old(db).tasks && old(db).tasks[lease.owner] == TaskRow(repo, WaitingRepoLock)
      ensures r.Ok? ==> && db.locks == old(db).locks[repo := lease] && db.repos == old(db).repos
                        && db.tasks == old(db).tasks[lease.owner := TaskRow(repo, Preparing)]
      ensures r == Err(TaskNotWaiting) ==> lease.owner in old(db).tasks && old(db).tasks[lease.owner] != TaskRow(repo, WaitingRepoLock)
    {
      if fails { return Err(Broken); }
      if repo in db.locks || repo !in db.repos || lease.owner !in db.tasks { return Err(RepoLocked); }
      var before := db;
      db := db.(locks := db.locks[repo := lease]);
      if !(db.tasks[lease.owner].repo == repo && db.tasks[lease.owner].status.WaitingRepoLock?) {
        db := before;
        return Err(TaskNotWaiting);
      }
      db := db.(tasks := db.tasks[lease.owner := db.tasks[lease.owner].(status := Preparing)]);
      return Ok(lease);
    }

    method Heartbeat(repo: nat, token: Token, now: int) returns (owned: bool)
      modifies this
      ensures owned == Owns(old(db), repo, token)
      ensures db == Beaten(old(db), repo, token, now)
      ensures owned <==> repo in old(db).locks && old(db).locks[repo].token == token
      ensures db.tasks == old(db).tasks && db.repos == old(db).repos
      ensures db.locks == if owned then old(db).locks[repo := Lease(old(db).locks[repo].owner, token, now, now + 60_000)]
                          else old(db).locks
    {
      owned := repo in db.locks && db.locks[repo].token == token;
      if owned {
        db := db.(locks := db.locks[repo := db.locks[repo].(heartbeatAt := now, leaseUntil := now + TTL)]);
      }
    }

    method Release(repo: nat, token: Token) returns (owned: bool)
      modifies this
      ensures owned == Owns(old(db), repo, token)
      ensures db == Deleted(old(db), repo, token)
      ensures owned <==> repo in old(db).locks && old(db).locks[repo].token == token
      ensures db.tasks == old(db).tasks && db.repos == old(db).repos
      ensures db.locks == if owned then old(db).locks - {repo} else old(db).locks
    {
      owned := repo in db.locks && db.locks[repo].token == token;
      if owned { db := db.(locks := db.locks - {repo}); }
    }
  }

  class Service {
    const locks: LockRepository
    var files: map<nat, LockFile>
    ghost var attempts: map<Token, Attempt>

    constructor (locks: LockRepository)
      ensures this.locks == locks && files == map[] && attempts == map[]
    {
      this.locks, files, attempts := locks, map[], map[];
    }

    ghost function Whole(): World
      reads this, locks
    {
      World(files, locks.db, attempts)
    }

    /** Exclusive creation: the lock file must not exist. */
    method CreateFile(repo: nat, token: Token) returns (created: bool)
      modifies this`files
      ensures created <==> repo !in old(files)
      ensures files == if created then old(files)[repo := LockFile(token, None)] else old(files)
    {
      created := repo !in files;
      if created { files := files[repo := LockFile(token, None)]; }
    }

    /** Creates the file and writes the token into it; a failed write leaves it. */
    method PlaceFile(repo: nat, task: Task, token: Token, writeFails: bool) returns (error: Option<LockError>, ghost path: seq<Step>)
      requires token !in attempts
      modifies this
      ensures Possible(old(Whole()), path) && Whole() == Run(old(Whole()), path)
      ensures error == if repo in old(files) then Some(RepoLocked) else if writeFails then Some(Broken) else None
      ensures error.None? ==> files == old(files)[repo := LockFile(token, Some(token))]
      ensures error.Some? ==> files == if repo in old(files) then old(files) else old(files)[repo := LockFile(token, None)]
      ensures error.None? ==> attempts == old(attempts)[token := Attempt(repo, task, Written, false)]
    {
      hide Run, Possible, Prepares, Prepared, Owns, Beaten, Deleted, TowardRecovery;
      ghost var w := Whole();
      NoSteps(w);
      Longer(w, [], Begin(token, repo, task));
      path := [] + [Begin(token, repo, task)];
      attempts := attempts[token := Attempt(repo, task, Opening, false)];
      assert Whole() == Run(w, path);

      Longer(w, path, Open(token));
      path := path + [Open(token)];
      var created := CreateFile(repo, token);
      attempts := attempts[token := Attempt(repo, task, if created then Created else Over, false)];
      assert Whole() == Run(w, path);
      if !created { return Some(RepoLocked), path; }

      Longer(w, path, Write(token, writeFails));
      path := path + [Write(token, writeFails)];
      attempts := attempts[token := Attempt(repo, task, if writeFails then Over else Written, false)];
      if writeFails { return Some(Broken), path; }
      files := files[repo := LockFile(token, Some(token))];
      return None, path;
    }

    /** Places the file, then commits row and task together; a failed transaction removes the file again. */
    method Acquire(repo: nat, task: Task, token: Token, now: int, writeFails: bool, insertFails: bool)
      returns (r: Result<Lease, LockError>, ghost path: seq<Step>)
      requires token !in attempts && Inv(Whole())
      modifies this, locks
      ensures Possible(old(Whole()), path) && Whole() == Run(old(Whole()), path)
      ensures r.Ok? <==> repo !in old(files) && !writeFails && !insertFails && Prepares(old(locks.db), repo, task)
      ensures r.Ok? ==> r.value == Lease(task, token, now, now + TTL)
      ensures r.Ok? ==> token in attempts && attempts[token] == Attempt(repo, task, Held, true)
      ensures r == Err(RepoLocked) <==>
                repo in old(files)
                || (!writeFails && !insertFails && (repo !in old(locks.db).repos || task !in old(locks.db).tasks))
      ensures r.Ok? ==>
                && task in old(locks.db).tasks && old(locks.db).tasks[task] == TaskRow(repo, WaitingRepoLock)
                && files == old(files)[repo := LockFile(token, Some(token))]
                && locks.db.locks == old(locks.db).locks[repo := Lease(task, token, now, now + 60_000)]
                && locks.db.tasks == old(locks.db).tasks[task := TaskRow(repo, Preparing)]
      ensures r.Err? ==> locks.db == old(locks.db)
      ensures r.Err? ==> files == if repo !in old(files) && writeFails then old(files)[repo := LockFile(token, None)] else old(files)
    {
      hide Run, Possible;
      ghost var w := Whole();
      assert RowFits(w, repo);
      var error;
      error, path := PlaceFile(repo, task, token, writeFails);
      if error.Some? { return Err(error.value), path; }

      Longer(w, path, Insert(token, now, insertFails));
      path := path + [Insert(token, now, insertFails)];
      r := locks.AcquireAndPrepare(repo, Lease(task, token, now, now + TTL), insertFails);
      attempts := attempts[token := Attempt(repo, task, if r.Ok? then Held else Undoing, r.Ok?)];
      assert Whole() == Run(w, path);
      if r.Ok? { return r, path; }

      Longer(w, path, Undo(token));
      path := path + [Undo(token)];
      files := files - {repo};
      assert files == old(files);
      attempts := attempts[token := Attempt(repo, task, Over, false)];
    }
  }

  class RepoLockLease {
    const service: Service
    const repo: nat
    const task: Task
    const token: Token
    var released: bool

    constructor (service: Service, repo: nat, task: Task, token: Token)
      ensures this.service == service && this.repo == repo && this.task == task && this.token == token
      ensures !released
    {
      this.service, this.repo, this.task, this.token := service, repo, task, token;
      released := false;
    }

    /** The lease object and the attempt it stands for. */
    ghost predicate Valid()
      reads this, service
    {
      && token in service.attempts
      && service.attempts[token].repo == repo && service.attempts[token].task == task && service.attempts[token].leased
      && (!released ==> service.attempts[token].phase.Held?)
    }

    /** True while the row is ours; otherwise the task is moved toward recovery. */
    method Heartbeat(now: int, fails: bool) returns (ok: bool)
      requires Valid()
      modifies service.locks
      ensures ok <==> !fails && repo in old(service.locks.db).locks && old(service.locks.db).locks[repo].token == token
      ensures Enabled(old(service.Whole()), Beat(token, now, fails))
      ensures service.Whole() == Next(old(service.Whole()), Beat(token, now, fails))
    {
      ok := false;
      if !fails {
        ok := service.locks.Heartbeat(repo, token, now);
      }
      if !ok {
        MoveTaskTowardRecovery();
      }
    }

    method MoveTaskTowardRecovery()
      modifies service.locks
      ensures service.locks.db == TowardRecovery(old(service.locks.db), task)
      ensures var (before, after) := (old(service.locks.db), service.locks.db);
              && after.locks == before.locks && after.repos == before.repos
              && after.tasks == if task in before.tasks
                                   && before.tasks[task].status in {WaitingRepoLock, Preparing, Running, Verifying, Publishing}
                                then before.tasks[task := TaskRow(before.tasks[task].repo, NeedsRecovery)]
                                else before.tasks
    {
      var tables := service.locks.db;
      if task !in tables.tasks || !Recoverable(tables.tasks[task].status) { return; }
      service.locks.db := tables.(tasks := tables.tasks[task := tables.tasks[task].(status := NeedsRecovery)]);
    }

    /** Deletes the row, then the file if it still carries our token. Only the first call does anything. */
    method Release(fails: bool) returns (ok: bool, ghost path: seq<Step>)
      requires Valid() && Inv(service.Whole())
      modifies this`released, service, service.locks
      ensures released
      ensures Possible(old(service.Whole()), path) && service.Whole() == Run(old(service.Whole()), path)
      ensures old(released) ==> path == []
      ensures ok && !old(released) ==> repo !in service.files && repo !in service.locks.db.locks
      ensures ok <==> old(released) || !fails
    {
      path := [];
      NoSteps(service.Whole());
      if released { return true, path; }
      released := true;
      hide Run, Possible;
      ghost var w := service.Whole();
      NoSteps(w);
      assert AttemptFits(w, token) && RowFits(w, repo);

      Longer(w, path, ReleaseRow(token, fails));
      path := path + [ReleaseRow(token, fails)];
      if fails {
        service.attempts := service.attempts[token := service.attempts[token].(phase := Over)];
        return false, path;
      }
      var owned := service.locks.Release(repo, token);
      service.attempts := service.attempts[token := service.attempts[token].(phase := Deleting)];
      assert service.Whole() == Run(w, path);

      Longer(w, path, ReleaseRead(token));
      path := path + [ReleaseRead(token)];
      var ours := repo in service.files && service.files[repo].content == Some(token);
      service.attempts := service.attempts[token := service.attempts[token].(phase := if ours then Confirmed else Over)];
      assert service.Whole() == Run(w, path);

      if ours {
        Longer(w, path, ReleaseRemove(token));
        path := path + [ReleaseRemove(token)];
        service.files := service.files - {repo};
        service.attempts := service.attempts[token := service.attempts[token].(phase := Over)];
      }
      return true, path;
    }
  }
}
