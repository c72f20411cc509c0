/** The command runner up to the spawn: policy decisions, single-use approvals, worktree preflight. */
module CommandRunner {
  import opened Approvals
  import opened Wrappers

  datatype Operation = Operation(executable: string, args: seq<string>)
  datatype Kind = Allow | Forbid | NeedsApproval
  datatype Decision = Decision(kind: Kind, hash: string)

  datatype Outcome = NoOperation | PolicyDenied | ApprovalRequired(hash: string) | WorktreeDenied | Spawned

  datatype Target = Target(add: bool, path: string)

  /** The worktree commands the policy allows, and the path they name. */
  function TargetOf(args: seq<string>): Option<Target> {
    if |args| == 6 && args[..3] == ["worktree", "add", "-b"] && args[3] != "" && args[4] != "" && args[5] != ""
    then Some(Target(true, args[4]))
    else if |args| == 4 && args[..3] == ["worktree", "remove", "--force"] && args[3] != ""
    then Some(Target(false, args[3]))
    else None
  }

  /** What the preflight asks of an allowed operation. */
  predicate Cleared(o: Operation, d: Decision, home: Option<string>, permits: (string, Target) -> bool) {
    d.kind.Allow? && o.executable == "git" && TargetOf(o.args).Some?
    ==> home.Some? && home.value != "" && permits(home.value, TargetOf(o.args).value)
  }

  /** A worktree command whose path nobody vouches for. */
  predicate Strays(o: Operation, home: Option<string>, permits: (string, Target) -> bool) {
    var args := o.args;
    && o.executable == "git"
    && (|| (|args| == 6 && args[0] == "worktree" && args[1] == "add" && args[2] == "-b" && args[3] != "" && args[4] != "" && args[5] != ""
            && (home.None? || home.value == "" || !permits(home.value, Target(true, args[4]))))
        || (|args| == 4 && args[0] == "worktree" && args[1] == "remove" && args[2] == "--force" && args[3] != ""
            && (home.None? || home.value == "" || !permits(home.value, Target(false, args[3])))))
  }

  lemma {:induction false} ClearedIff(o: Operation, d: Decision, home: Option<string>, permits: (string, Target) -> bool)
    ensures Cleared(o, d, home, permits) <==> !(d.kind.Allow? && Strays(o, home, permits))
  {
    assert |o.args| == 6 ==> o.args[..3] == [o.args[0], o.args[1], o.args[2]];
    assert |o.args| == 4 ==> o.args[..3] == [o.args[0], o.args[1], o.args[2]];
  }

  /** One awaited consumption, and what others do to the table before it runs. */
  datatype Turn = Turn(before: seq<Op>, ask: Op)

  /** The consumptions a command asks for, in order, each at its own time. */
  function Asks(task: string, decisions: seq<Decision>, clock: nat -> int, others: nat -> seq<Op>, from: nat): seq<Turn>
    decreases |decisions| - from
  {
    if from >= |decisions| then []
    else if decisions[from].kind.NeedsApproval?
    then [Turn(others(from), Consume(task, decisions[from].hash, clock(from)))] + Asks(task, decisions, clock, others, from + 1)
    else Asks(task, decisions, clock, others, from + 1)
  }

  predicate AllSucceed(t: Table, turns: seq<Turn>)
    decreases |turns|
  {
    turns == []
    || var s := ApplyAll(t, turns[0].before); Succeeds(s, turns[0].ask) && AllSucceed(Apply(s, turns[0].ask), turns[1..])
  }

  /** The table when every ask is answered, or when the first one is refused. */
  function Answered(t: Table, turns: seq<Turn>): Table
    decreases |turns|
  {
    if turns == [] then t
    else
      var s := ApplyAll(t, turns[0].before);
      if !Succeeds(s, turns[0].ask) then Apply(s, turns[0].ask) else Answered(Apply(s, turns[0].ask), turns[1..])
  }

  class Runner {
    const approvals: ApprovalRepository
    var started: nat

    constructor (approvals: ApprovalRepository)
      ensures this.approvals == approvals && started == 0
    {
      this.approvals, started := approvals, 0;
    }

    /** Consumes one approval per gated decision; stops at the first that is missing. Each consumption is
        awaited, so others may use the table before it. */
    method ConsumeAll(task: string, decisions: seq<Decision>, clock: nat -> int, others: nat -> seq<Op>)
      returns (missing: Option<string>)
      requires approvals.Valid()
      modifies approvals
      ensures approvals.Valid()
      ensures missing.None? <==> AllSucceed(old(approvals.Contents()), Asks(task, decisions, clock, others, 0))
      ensures approvals.Contents() == Answered(old(approvals.Contents()), Asks(task, decisions, clock, others, 0))
    {
      hide Sweep, Spend, HasUsable, Sound, ApplyAll;
      ghost var asks := Asks(task, decisions, clock, others, 0);
      ghost var all := AllSucceed(approvals.Contents(), asks);
      ghost var final := Answered(approvals.Contents(), asks);
      var i := 0;
      while i < |decisions|
        invariant i <= |decisions| && approvals.Valid()
        invariant all == AllSucceed(approvals.Contents(), Asks(task, decisions, clock, others, i))
        invariant final == Answered(approvals.Contents(), Asks(task, decisions, clock, others, i))
      {
        if decisions[i].kind.NeedsApproval? {
          ghost var rest := Asks(task, decisions, clock, others, i);
          assert rest[0] == Turn(others(i), Consume(task, decisions[i].hash, clock(i)));
          assert rest[1..] == Asks(task, decisions, clock, others, i + 1);
          approvals.Perform(others(i));
          var consumed := approvals.Consume(task, decisions[i].hash, clock(i));
          if !consumed { return Some(decisions[i].hash); }
        }
        i := i + 1;
      }
      return None;
    }

    /** The worktree guard: every path of an allowed worktree command must be vouched for. */
    method Preflight(operations: seq<Operation>, list: seq<Decision>, home: Option<string>, permits: (string, Target) -> bool)
      returns (ok: bool)
      requires |operations| == |list|
      ensures ok <==> forall k :: 0 <= k < |list| ==> !(list[k].kind.Allow? && Strays(operations[k], home, permits))
    {
      hide Strays, Cleared;
      var i := 0;
      while i < |list|
        invariant i <= |list| && forall k :: 0 <= k < i ==> !(list[k].kind.Allow? && Strays(operations[k], home, permits))
      {
        ClearedIff(operations[i], list[i], home, permits);
        if !Cleared(operations[i], list[i], home, permits) { return false; }
        i := i + 1;
      }
      return true;
    }

    /** One command. The run record and the child process come last, after every other check. */
    method Run(task: string, operations: seq<Operation>, decide: Operation -> Decision, clock: nat -> int,
               others: nat -> seq<Op>, home: Option<string>, permits: (string, Target) -> bool)
      returns (o: Outcome, ghost decisions: seq<Decision>)
      requires approvals.Valid()
      modifies this`started, approvals
      ensures approvals.Valid()
      ensures |decisions| == |operations| && forall k :: 0 <= k < |operations| ==> decisions[k] == decide(operations[k])
      ensures started == old(started) + (if o.Spawned? then 1 else 0)
      ensures o.Spawned? <==>
              && operations != []
              && (forall k :: 0 <= k < |decisions| ==> !decisions[k].kind.Forbid?)
              && AllSucceed(old(approvals.Contents()), Asks(task, decisions, clock, others, 0))
              && forall k :: 0 <= k < |decisions| ==> !(decisions[k].kind.Allow? && Strays(operations[k], home, permits))
      ensures o.NoOperation? || o.PolicyDenied? ==> approvals.Contents() == old(approvals.Contents())
      ensures o.ApprovalRequired? || o.WorktreeDenied? || o.Spawned? ==>
                approvals.Contents() == Answered(old(approvals.Contents()), Asks(task, decisions, clock, others, 0))
    {
      hide Strays, Sound, AllSucceed, Answered, Asks;
      decisions := seq(|operations|, k requires 0 <= k < |operations| => decide(operations[k]));
      var list := seq(|operations|, k requires 0 <= k < |operations| => decide(operations[k]));
      assert list == decisions;
      if |operations| == 0 { return NoOperation, decisions; }
      var i := 0;
      while i < |list|
        invariant i <= |list| && forall k :: 0 <= k < i ==> !list[k].kind.Forbid?
      {
        if list[i].kind.Forbid? { return PolicyDenied, decisions; }
        i := i + 1;
      }
      var missing := ConsumeAll(task, list, clock, others);
      if missing.Some? { return ApprovalRequired(missing.value), decisions; }
      var vouched := Preflight(operations, list, home, permits);
      if !vouched { return WorktreeDenied, decisions; }
      started := started + 1;
      return Spawned, decisions;
    }
  }

  // ----- what a command asks for -----

  /** The places of the gated decisions from `from` on, in order. */
  ghost predicate GatedAt(decisions: seq<Decision>, from: nat, at: seq<nat>) {
    && (forall i :: 0 <= i < |at| ==> from <= at[i] < |decisions| && decisions[at[i]].kind.NeedsApproval?)
    && (forall i, j :: 0 <= i < j < |at| ==> at[i] < at[j])
    && forall k :: from <= k < |decisions| && decisions[k].kind.NeedsApproval? ==> k in at
  }

  /** One consumption for each gated decision and no other, in order, for its own hash and at its own time. */
  lemma {:induction false} AsksAreTheGated(task: string, decisions: seq<Decision>, clock: nat -> int, others: nat -> seq<Op>, from: nat)
    returns (at: seq<nat>)
    ensures GatedAt(decisions, from, at)
    ensures AsksAt(task, decisions, clock, others, Asks(task, decisions, clock, others, from), at)
    decreases |decisions| - from
  {
    at := [];
    if from < |decisions| {
      var later := AsksAreTheGated(task, decisions, clock, others, from + 1);
      var turns := Asks(task, decisions, clock, others, from + 1);
      at := if decisions[from].kind.NeedsApproval? then [from] + later else later;
      hide Asks;
      OneMoreGated(decisions, from, later);
      if decisions[from].kind.NeedsApproval? { OneMoreAsk(task, decisions, clock, others, turns, later, from); }
    }
  }

  /** One consumption for each of these places, in order. */
  ghost predicate AsksAt(task: string, decisions: seq<Decision>, clock: nat -> int, others: nat -> seq<Op>, turns: seq<Turn>, at: seq<nat>) {
    && |turns| == |at|
    && forall i :: 0 <= i < |at| ==>
         at[i] < |decisions| && turns[i] == Turn(others(at[i]), Op.Consume(task, decisions[at[i]].hash, clock(at[i])))
  }

  lemma {:induction false} OneMoreGated(decisions: seq<Decision>, from: nat, later: seq<nat>)
    requires from < |decisions| && GatedAt(decisions, from + 1, later)
    ensures GatedAt(decisions, from, if decisions[from].kind.NeedsApproval? then [from] + later else later)
  {
    var at := if decisions[from].kind.NeedsApproval? then [from] + later else later;
    forall k | from <= k < |decisions| && decisions[k].kind.NeedsApproval? ensures k in at {
      if k > from { assert k in later; }
    }
  }

  lemma {:induction false} OneMoreAsk(task: string, decisions: seq<Decision>, clock: nat -> int, others: nat -> seq<Op>,
                                      turns: seq<Turn>, later: seq<nat>, from: nat)
    requires from < |decisions| && AsksAt(task, decisions, clock, others, turns, later)
    ensures AsksAt(task, decisions, clock, others,
                   [Turn(others(from), Op.Consume(task, decisions[from].hash, clock(from)))] + turns, [from] + later)
  {
  }

  /** Every ask finds its approval in the table as it stands then: after everything before it, of this command
      and of others. */
  ghost predicate EachInItsTurn(t: Table, turns: seq<Turn>, tables: seq<Table>) {
    && |tables| == |turns| + 1 && tables[0] == t
    && forall i :: 0 <= i < |turns| ==> OneTurn(tables[i], turns[i], tables[i + 1])
  }

  predicate OneTurn(t: Table, turn: Turn, u: Table) {
    var s := ApplyAll(t, turn.before);
    Succeeds(s, turn.ask) && u == Apply(s, turn.ask)
  }

  /** A command's asks all succeed exactly if each does in its turn. */
  lemma {:induction false} SuccessInTurn(t: Table, turns: seq<Turn>) returns (tables: seq<Table>)
    requires AllSucceed(t, turns)
    ensures EachInItsTurn(t, turns, tables) && Answered(t, turns) == tables[|turns|]
    decreases |turns|
  {
    tables := [t];
    if turns != [] {
      hide ApplyAll, Apply, Succeeds;
      var u := Apply(ApplyAll(t, turns[0].before), turns[0].ask);
      var later := SuccessInTurn(u, turns[1..]);
      tables := [t] + later;
      assert OneTurn(t, turns[0], u);
      hide OneTurn;
      forall i | 0 <= i < |turns| ensures OneTurn(tables[i], turns[i], tables[i + 1]) {
        if i > 0 { assert OneTurn(later[i - 1], turns[1..][i - 1], later[i]); }
      }
    }
  }

  lemma {:induction false} InTurnSucceeds(t: Table, turns: seq<Turn>, tables: seq<Table>)
    requires EachInItsTurn(t, turns, tables)
    ensures AllSucceed(t, turns)
    decreases |turns|
  {
    hide ApplyAll, Apply, Succeeds;
    if turns != [] {
      assert OneTurn(tables[0], turns[0], tables[1]);
      var (later, rest) := (tables[1..], turns[1..]);
      forall i | 0 <= i < |rest| ensures OneTurn(later[i], rest[i], later[i + 1]) {
        assert OneTurn(tables[i + 1], turns[i + 1], tables[i + 2]);
      }
      InTurnSucceeds(tables[1], rest, later);
    }
  }

  // ----- exactly when the approvals suffice -----

  /** Consumptions of one task. */
  predicate Consumes(task: string, turns: seq<Turn>) {
    forall k :: 0 <= k < |turns| ==> turns[k].ask.Consume? && turns[k].ask.task == task
  }

  /** Nobody else uses the table meanwhile. */
  predicate Undisturbed(turns: seq<Turn>) {
    forall k :: 0 <= k < |turns| ==> turns[k].before == []
  }

  lemma {:induction false} AsksConsume(task: string, decisions: seq<Decision>, clock: nat -> int, others: nat -> seq<Op>, from: nat)
    ensures Consumes(task, Asks(task, decisions, clock, others, from))
    decreases |decisions| - from
  {
    if from < |decisions| { AsksConsume(task, decisions, clock, others, from + 1); }
  }

  /** Consuming for one hash neither gives nor takes approvals of another. */
  lemma {:induction false} OthersKept(t: Table, task: string, hash: string, now: int, other: string, later: int)
    requires other != hash
    ensures HasUsable(Apply(t, Consume(task, hash, now)), task, other, later) <==> HasUsable(t, task, other, later)
  {
    var s := Apply(t, Consume(task, hash, now));
    assert forall id :: id in t.rows ==> id in s.rows && (About(t.rows[id], task, other) ==> s.rows[id] == t.rows[id]);
    assert forall id :: id in s.rows ==> id in t.rows && About(s.rows[id], task, other) == About(t.rows[id], task, other);
  }

  /** A usable approval for each ask, and no hash asked for twice. */
  predicate Covered(t: Table, task: string, turns: seq<Turn>)
    requires Consumes(task, turns)
  {
    && (forall i, j :: 0 <= i < j < |turns| ==> turns[i].ask.hash != turns[j].ask.hash)
    && forall k :: 0 <= k < |turns| ==> HasUsable(t, task, turns[k].ask.hash, turns[k].ask.now)
  }

  /** Left alone, a command's approvals suffice if and only if it asks for no hash twice and a usable
      approval exists for each: one approval never covers two operations of one command. */
  lemma {:induction false} SufficeIff(t: Table, task: string, turns: seq<Turn>)
    requires Sound(t) && Consumes(task, turns) && Undisturbed(turns)
    ensures AllSucceed(t, turns) <==> Covered(t, task, turns)
    decreases |turns|
  {
    hide Sound, HasUsable, Apply;
    if turns != [] {
      var s := Apply(t, turns[0].ask);
      StaysSound(t, turns[0].ask);
      SufficeIff(s, task, turns[1..]);
      FirstOfMany(t, task, turns);
    }
  }

  lemma {:induction false} FirstOfMany(t: Table, task: string, turns: seq<Turn>)
    requires Sound(t) && Consumes(task, turns) && turns != []
    ensures var first := turns[0].ask;
            Covered(t, task, turns) <==> HasUsable(t, task, first.hash, first.now) && Covered(Apply(t, first), task, turns[1..])
  {
    hide Sound, HasUsable, HasApproved, Apply;
    var first := turns[0].ask;
    var s := Apply(t, first);
    if HasUsable(t, task, first.hash, first.now) {
      ConsumeEmpties(t, task, first.hash, first.now);
      forall k | 1 <= k < |turns|
        ensures HasUsable(s, task, turns[k].ask.hash, turns[k].ask.now) <==>
                turns[k].ask.hash != first.hash && HasUsable(t, task, turns[k].ask.hash, turns[k].ask.now)
      {
        if turns[k].ask.hash != first.hash {
          OthersKept(t, task, first.hash, first.now, turns[k].ask.hash, turns[k].ask.now);
        } else {
          NoneUsable(s, task, first.hash, turns[k].ask.now);
        }
      }
      assert forall k :: 1 <= k < |turns| ==> turns[1..][k - 1] == turns[k];
      assert forall k :: 0 <= k < |turns[1..]| ==> turns[1..][k] == turns[k + 1];
    }
  }

  lemma {:induction false} NoneUsable(t: Table, task: string, hash: string, now: int)
    requires !HasApproved(t, task, hash)
    ensures !HasUsable(t, task, hash, now)
  {
  }

  /** One approval and two equal asks: the first ask spends it, the second refuses the command, and
      nothing is left for another attempt. */
  lemma {:induction false} TwoEqualAsksLoseTheApproval()
    ensures var t := Table(map[1 := Row("t", "h", Approved, Some(1))], 2);
            var ask := Turn([], Consume("t", "h", 0));
            && Sound(t) && HasUsable(t, "t", "h", 0)
            && !AllSucceed(t, [ask, ask]) && !HasApproved(Answered(t, [ask, ask]), "t", "h")
  {
    var t := Table(map[1 := Row("t", "h", Approved, Some(1))], 2);
    var ask := Turn([], Consume("t", "h", 0));
    assert About(t.rows[1], "t", "h") && Usable(t.rows[1], 0);
    var s := Apply(t, ask.ask);
    assert s.rows == map[1 := Row("t", "h", Consumed, Some(1))];
    assert [ask, ask][1..] == [ask];
    assert !HasUsable(s, "t", "h", 0);
    assert Apply(s, ask.ask).rows == s.rows;
    assert ApplyAll(s, []) == s && Answered(s, [ask]) == Apply(s, ask.ask);
  }

  // ----- any number of commands at once -----

  datatype Phase = Asking | Refused | Started

  /** A running command: the hashes of its gated operations, and how many approvals it has consumed. */
  datatype Command = Command(task: string, hashes: seq<string>, spent: nat, phase: Phase)

  datatype World = World(table: Table, commands: seq<Command>)

  /** `Elsewhere` is any call of a user that is not one of these commands. */
  datatype Step = Arrive(task: string, hashes: seq<string>) | Ask(r: nat, now: int) | Start(r: nat) | Elsewhere(op: Op)

  predicate AtAsk(w: World, r: nat) {
    r < |w.commands| && w.commands[r].phase.Asking? && w.commands[r].spent < |w.commands[r].hashes|
  }

  function AskOf(c: Command, now: int): Op
    requires c.spent < |c.hashes|
  {
    Consume(c.task, c.hashes[c.spent], now)
  }

  function After(c: Command, consumed: bool): Command {
    if consumed then c.(spent := c.spent + 1) else c.(phase := Refused)
  }

  function Take(w: World, s: Step): World {
    match s
    case Arrive(task, hashes) => w.(commands := w.commands + [Command(task, hashes, 0, Asking)])
    case Ask(r, now) =>
      if !AtAsk(w, r) then w
      else
        var (c, op) := (w.commands[r], AskOf(w.commands[r], now));
        World(Apply(w.table, op), w.commands[r := After(c, Succeeds(w.table, op))])
    case Start(r) =>
      if r < |w.commands| && w.commands[r].phase.Asking? && w.commands[r].spent == |w.commands[r].hashes|
      then w.(commands := w.commands[r := w.commands[r].(phase := Started)])
      else w
    case Elsewhere(op) => w.(table := Apply(w.table, op))
  }

  function Run(w: World, steps: seq<Step>): World
    decreases |steps|
  {
    if steps == [] then w else Run(Take(w, steps[0]), steps[1..])
  }

  function Times(hashes: seq<string>, hash: string): nat {
    if hashes == [] then 0 else Times(hashes[..|hashes| - 1], hash) + One(hashes[|hashes| - 1] == hash)
  }

  /** The approvals of a pair that these commands have consumed, each for an operation of its own. */
  function Spending(commands: seq<Command>, task: string, hash: string): nat {
    if commands == [] then 0
    else
      var c := commands[0];
      (if c.task == task && c.spent <= |c.hashes| then Times(c.hashes[..c.spent], hash) else 0) + Spending(commands[1..], task, hash)
  }

  /** The gated operations of a pair that these commands have started. */
  function Starts(commands: seq<Command>, task: string, hash: string): nat {
    if commands == [] then 0
    else
      var c := commands[0];
      (if c.task == task && c.phase.Started? then Times(c.hashes, hash) else 0) + Starts(commands[1..], task, hash)
  }

  /** Approvals given to a pair over a run. */
  function Given(w: World, steps: seq<Step>, task: string, hash: string): nat
    decreases |steps|
  {
    if steps == [] then 0
    else
      (if steps[0].Elsewhere? then ApprovalsGiven(w.table, [steps[0].op], task, hash) else 0)
      + Given(Take(w, steps[0]), steps[1..], task, hash)
  }

  /** A started command has consumed an approval for each of its gated operations. */
  ghost predicate InOrder(commands: seq<Command>) {
    forall r :: 0 <= r < |commands| ==>
      commands[r].spent <= |commands[r].hashes| && (commands[r].phase.Started? ==> commands[r].spent == |commands[r].hashes|)
  }

  lemma {:induction false} StepStaysInOrder(w: World, s: Step)
    requires InOrder(w.commands) && Sound(w.table)
    ensures InOrder(Take(w, s).commands) && Sound(Take(w, s).table)
  {
    hide Sound, Apply, Succeeds;
    if s.Ask? && AtAsk(w, s.r) {
      StaysSound(w.table, AskOf(w.commands[s.r], s.now));
    } else if s.Elsewhere? {
      StaysSound(w.table, s.op);
    }
  }

  lemma {:induction false} StartsWithinSpending(commands: seq<Command>, task: string, hash: string)
    requires InOrder(commands)
    ensures Starts(commands, task, hash) <= Spending(commands, task, hash)
  {
    if commands != [] {
      assert InOrder(commands[1..]);
      StartsWithinSpending(commands[1..], task, hash);
      assert commands[0].phase.Started? ==> commands[0].hashes[..commands[0].spent] == commands[0].hashes;
    }
  }

  /** Changing one command changes the sum by what it changes there. */
  lemma {:induction false} SpendingOfOne(commands: seq<Command>, r: nat, c: Command, task: string, hash: string)
    requires r < |commands|
    ensures Spending(commands[r := c], task, hash) + Spending([commands[r]], task, hash) ==
            Spending(commands, task, hash) + Spending([c], task, hash)
  {
    if r > 0 {
      assert commands[r := c][1..] == commands[1..][r - 1 := c];
      SpendingOfOne(commands[1..], r - 1, c, task, hash);
    } else {
      assert commands[0 := c][1..] == commands[1..] && [c][1..] == [] && [commands[0]][1..] == [];
    }
  }

  lemma {:induction false} SpendingOfNew(commands: seq<Command>, c: Command, task: string, hash: string)
    ensures Spending(commands + [c], task, hash) == Spending(commands, task, hash) + Spending([c], task, hash)
  {
    if commands == [] {
      assert [] + [c] == [c];
    } else {
      assert (commands + [c])[1..] == commands[1..] + [c];
      SpendingOfNew(commands[1..], c, task, hash);
    }
  }

  lemma {:induction false} OneMoreSpent(c: Command, now: int, consumed: bool, task: string, hash: string)
    requires c.spent < |c.hashes|
    ensures Spending([After(c, consumed)], task, hash) ==
            Spending([c], task, hash) + One(consumed && c.task == task && AskOf(c, now).hash == hash)
  {
    var more := c.hashes[..c.spent + 1];
    assert more[..|more| - 1] == c.hashes[..c.spent] && more[|more| - 1] == c.hashes[c.spent];
    assert [c][1..] == [] && [After(c, consumed)][1..] == [];
  }

  lemma {:induction false} OneApproval(t: Table, op: Op, task: string, hash: string)
    ensures ApprovalsGiven(t, [op], task, hash) ==
            One(op.Approve? && Succeeds(t, op) && t.rows[op.id].task == task && op.hash == hash)
  {
    assert [op][1..] == [];
  }

  /** One step: what the commands have consumed grows by no more than what was approved. */
  lemma {:induction false} StepWithinApprovals(w: World, s: Step, task: string, hash: string)
    requires Sound(w.table)
    ensures var v := Take(w, s);
            Spending(v.commands, task, hash) + One(HasApproved(v.table, task, hash))
            <= Spending(w.commands, task, hash) + One(HasApproved(w.table, task, hash)) + Given(w, [s], task, hash)
  {
    hide Sound, Apply, HasApproved, Succeeds, Times, ApprovalsGiven;
    assert [s][1..] == [];
    match s
    case Arrive(k, hashes) =>
      SpendingOfNew(w.commands, Command(k, hashes, 0, Asking), task, hash);
      NoneSpent(Command(k, hashes, 0, Asking), task, hash);
    case Ask(r, now) =>
      if AtAsk(w, r) {
        var c := w.commands[r];
        var op := AskOf(c, now);
        StepConserves(w.table, op, task, hash);
        SpendingOfOne(w.commands, r, After(c, Succeeds(w.table, op)), task, hash);
        OneMoreSpent(c, now, Succeeds(w.table, op), task, hash);
      }
    case Start(r) =>
      if r < |w.commands| {
        var c := w.commands[r].(phase := Started);
        SpendingOfOne(w.commands, r, c, task, hash);
        assert [c][1..] == [] && [w.commands[r]][1..] == [];
      }
    case Elsewhere(op) =>
      StepConserves(w.table, op, task, hash);
      OneApproval(w.table, op, task, hash);
  }

  lemma {:induction false} NoneSpent(c: Command, task: string, hash: string)
    requires c.spent == 0
    ensures Spending([c], task, hash) == 0
  {
    assert c.hashes[..0] == [] && [c][1..] == [];
  }

  /** Over every interleaving of any number of commands with any other use of the table: the gated
      operations that were started never outnumber the approvals the owner gave. */
  lemma {:induction false} StartsWithinApprovals(w: World, steps: seq<Step>, task: string, hash: string)
    requires Sound(w.table) && InOrder(w.commands)
    ensures var v := Run(w, steps);
            && InOrder(v.commands)
            && Starts(v.commands, task, hash) <= Spending(v.commands, task, hash)
            && Spending(v.commands, task, hash) + One(HasApproved(v.table, task, hash))
               <= Spending(w.commands, task, hash) + One(HasApproved(w.table, task, hash)) + Given(w, steps, task, hash)
    decreases |steps|
  {
    hide Take, Sound, HasApproved, Spending, Starts, InOrder;
    if steps == [] {
      StartsWithinSpending(w.commands, task, hash);
    } else {
      StepStaysInOrder(w, steps[0]);
      StepWithinApprovals(w, steps[0], task, hash);
      assert [steps[0]][1..] == [];
      StartsWithinApprovals(Take(w, steps[0]), steps[1..], task, hash);
    }
  }

  // ----- the runner's own consumptions are such a run -----

  function Elsewheres(ops: seq<Op>): seq<Step> {
    if ops == [] then [] else [Elsewhere(ops[0])] + Elsewheres(ops[1..])
  }

  /** The steps of command `r` and of everybody else while it consumes; it stops where it is refused. */
  function Path(t: Table, turns: seq<Turn>, r: nat): seq<Step>
    decreases |turns|
  {
    if turns == [] || !turns[0].ask.Consume? then []
    else
      var s := ApplyAll(t, turns[0].before);
      Elsewheres(turns[0].before)
      + ([Ask(r, turns[0].ask.now)] + (if Succeeds(s, turns[0].ask) then Path(Apply(s, turns[0].ask), turns[1..], r) else []))
  }

  /** The turns are the asks this command still has to make. */
  predicate Remaining(c: Command, turns: seq<Turn>) {
    && c.phase.Asking? && c.spent + |turns| == |c.hashes|
    && forall k :: 0 <= k < |turns| ==>
         turns[k].ask.Consume? && turns[k].ask.task == c.task && turns[k].ask.hash == c.hashes[c.spent + k]
  }

  lemma {:induction false} RunElsewhere(w: World, ops: seq<Op>, rest: seq<Step>)
    ensures Run(w, Elsewheres(ops) + rest) == Run(World(ApplyAll(w.table, ops), w.commands), rest)
    decreases |ops|
  {
    if ops == [] {
      assert Elsewheres(ops) + rest == rest;
    } else {
      var steps := Elsewheres(ops) + rest;
      assert steps[0] == Elsewhere(ops[0]) && steps[1..] == Elsewheres(ops[1..]) + rest;
      RunElsewhere(Take(w, steps[0]), ops[1..], rest);
    }
  }

  /** What `ConsumeAll` does to the table is what command `r` does in the machine. */
  lemma {:induction false} ConsumingIsARun(w: World, r: nat, turns: seq<Turn>)
    requires r < |w.commands| && Remaining(w.commands[r], turns)
    ensures var v := Run(w, Path(w.table, turns, r));
            && v.table == Answered(w.table, turns)
            && |v.commands| == |w.commands| && (forall k :: 0 <= k < |w.commands| && k != r ==> v.commands[k] == w.commands[k])
            && (if AllSucceed(w.table, turns) then v.commands[r] == w.commands[r].(spent := |w.commands[r].hashes|)
                else v.commands[r].phase.Refused?)
    decreases |turns|
  {
    hide ApplyAll, Apply, Succeeds;
    if turns != [] {
      var s := ApplyAll(w.table, turns[0].before);
      var at := World(s, w.commands);
      var ask := Ask(r, turns[0].ask.now);
      var next := Take(at, ask);
      var rest := if Succeeds(s, turns[0].ask) then Path(Apply(s, turns[0].ask), turns[1..], r) else [];
      RunElsewhere(w, turns[0].before, [ask] + rest);
      assert ([ask] + rest)[0] == ask && ([ask] + rest)[1..] == rest;
      assert AskOf(w.commands[r], turns[0].ask.now) == turns[0].ask;
      if Succeeds(s, turns[0].ask) {
        ConsumingIsARun(next, r, turns[1..]);
      }
    }
  }
}
