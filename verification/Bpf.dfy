/** The system-call filter of the execution sandbox: the program its builder emits, a classic-BPF
    interpreter with relative forward jumps, and the decision table the program implements. */
module Bpf {
  import opened Wrappers
  import opened Sequences

  const CAPACITY := 512

  const RET_ALLOW: bv32 := 0x7FFF0000
  const RET_KILL_PROCESS: bv32 := 0x80000000
  const RET_EPERM: bv32 := 0x00050001
  const RET_ENOSYS: bv32 := 0x00050026

  const ARCH_X86_64: bv32 := 0xC000003E
  const X32_BIT: bv32 := 0x40000000
  const SYS_IOCTL: bv32 := 16
  const SYS_SOCKETPAIR: bv32 := 53
  const SYS_CLONE: bv32 := 56
  const SYS_PRCTL: bv32 := 157
  const SYS_CLONE3: bv32 := 435
  const AF_UNIX: bv32 := 1
  const PR_SET_NAME: bv32 := 15
  const FIONBIO: bv32 := 0x5421
  const FIONREAD: bv32 := 0x541B
  const TCGETS: bv32 := 0x5401
  const TIOCGWINSZ: bv32 := 0x5413

  /** New namespaces of every kind, CLONE_PTRACE and CLONE_UNTRACED. */
  const CLONE_FORBIDDEN: bv32 :=
    0x00020000 | 0x02000000 | 0x04000000 | 0x08000000 | 0x10000000 | 0x20000000 | 0x40000000 | 0x00002000 | 0x00800000

  /** A 64-bit argument; the filter loads its low half only. */
  datatype Word = Word(lo: bv32, hi: bv32)
  datatype Data = Data(nr: bv32, arch: bv32, arg0: Word, arg1: Word)

  datatype Field = Nr | Arch | Arg0 | Arg1

  datatype Instr =
    | Load(field: Field)
    | JumpEqual(k: bv32, jt: nat, jf: nat)
    | JumpSet(k: bv32, jt: nat, jf: nat)
    | Return(verdict: bv32)

  function Fetch(f: Field, d: Data): bv32 {
    match f
    case Nr => d.nr
    case Arch => d.arch
    case Arg0 => d.arg0.lo
    case Arg1 => d.arg1.lo
  }

  function Jump(i: Instr, a: bv32): nat
    requires i.JumpEqual? || i.JumpSet?
  {
    if (if i.JumpEqual? then a == i.k else a & i.k != 0) then i.jt else i.jf
  }

  /** The kernel's interpreter: None if control leaves the program without a return. */
  function Exec(p: seq<Instr>, pc: nat, a: bv32, d: Data): Option<bv32>
    decreases |p| - pc
  {
    if pc >= |p| then None
    else match p[pc]
         case Load(f) => Exec(p, pc + 1, Fetch(f, d), d)
         case Return(v) => Some(v)
         case _ => Exec(p, pc + 1 + Jump(p[pc], a), a, d)
  }

  /** The ordered decision table. */
  function Decide(allowed: seq<bv32>, d: Data): bv32 {
    if d.arch != ARCH_X86_64 then RET_KILL_PROCESS
    else if d.nr & X32_BIT != 0 then RET_KILL_PROCESS
    else if d.nr == SYS_CLONE3 then RET_ENOSYS
    else if d.nr == SYS_CLONE then if d.arg0.lo & CLONE_FORBIDDEN == 0 then RET_ALLOW else RET_EPERM
    else if d.nr == SYS_SOCKETPAIR then if d.arg0.lo == AF_UNIX then RET_ALLOW else RET_EPERM
    else if d.nr == SYS_IOCTL then
      if d.arg1.lo in {FIONBIO, FIONREAD, TCGETS, TIOCGWINSZ} then RET_ALLOW else RET_EPERM
    else if d.nr == SYS_PRCTL then if d.arg0.lo == PR_SET_NAME then RET_ALLOW else RET_EPERM
    else if d.nr in allowed then RET_ALLOW
    else RET_EPERM
  }

  // ---- The emitted program ----

  function Guards(): seq<Instr> {
    [Load(Arch), JumpEqual(ARCH_X86_64, 1, 0), Return(RET_KILL_PROCESS),
     Load(Nr), JumpSet(X32_BIT, 0, 1), Return(RET_KILL_PROCESS),
     JumpEqual(SYS_CLONE3, 0, 1), Return(RET_ENOSYS)]
  }

  function CloneRule(): seq<Instr> {
    [JumpEqual(SYS_CLONE, 0, 4), Load(Arg0), JumpSet(CLONE_FORBIDDEN, 1, 0), Return(RET_ALLOW), Return(RET_EPERM)]
  }

  function ArgumentRule(nr: bv32, value: bv32): seq<Instr> {
    [JumpEqual(nr, 0, 4), Load(Arg0), JumpEqual(value, 0, 1), Return(RET_ALLOW), Return(RET_EPERM)]
  }

  function IoctlRule(): seq<Instr> {
    [JumpEqual(SYS_IOCTL, 0, 7), Load(Arg1), JumpEqual(FIONBIO, 4, 0), JumpEqual(FIONREAD, 3, 0),
     JumpEqual(TCGETS, 2, 0), JumpEqual(TIOCGWINSZ, 1, 0), Return(RET_EPERM), Return(RET_ALLOW)]
  }

  function AllowRule(nr: bv32): seq<Instr> {
    [JumpEqual(nr, 0, 1), Return(RET_ALLOW)]
  }

  function AllowList(allowed: seq<bv32>): (p: seq<Instr>)
    ensures |p| == 2 * |allowed|
  {
    if allowed == [] then [] else AllowRule(allowed[0]) + AllowList(allowed[1..])
  }

  function Program(allowed: seq<bv32>): (p: seq<Instr>)
    ensures |p| == 32 + 2 * |allowed|
  {
    Guards() + (CloneRule() + (ArgumentRule(SYS_SOCKETPAIR, AF_UNIX) + (IoctlRule()
      + (ArgumentRule(SYS_PRCTL, PR_SET_NAME) + (AllowList(allowed) + [Return(RET_EPERM)])))))
  }

  /** The static array `filter`, its fill count, and whether the builder has given up (`die`). */
  class FilterBuilder {
    const filter: array<Instr>
    var count: nat
    var died: bool
    ghost var emitted: seq<Instr>

    ghost predicate Valid()
      reads this, filter
    {
      && filter.Length == CAPACITY && count <= CAPACITY
      && (died <==> |emitted| > CAPACITY)
      && (!died ==> filter[..count] == emitted)
    }

    constructor ()
      ensures Valid() && emitted == [] && fresh(filter)
    {
      filter := new Instr[CAPACITY](_ => Return(RET_EPERM));
      count, died, emitted := 0, false, [];
    }

    /** Append one instruction; a full array ends the process, so nothing is written after that. */
    method Emit(instruction: Instr)
      requires Valid()
      modifies this, filter
      ensures Valid() && emitted == old(emitted) + [instruction]
    {
      emitted := emitted + [instruction];
      if died { return; }
      if count >= CAPACITY {
        died := true;
        return;
      }
      filter[count] := instruction;
      count := count + 1;
    }

    method Allow(nr: bv32)
      requires Valid()
      modifies this, filter
      ensures Valid() && emitted == old(emitted) + AllowRule(nr)
    {
      Emit(JumpEqual(nr, 0, 1));
      Emit(Return(RET_ALLOW));
    }

    method ArgumentEquals(nr: bv32, value: bv32)
      requires Valid()
      modifies this, filter
      ensures Valid() && emitted == old(emitted) + ArgumentRule(nr, value)
    {
      Emit(JumpEqual(nr, 0, 4));
      Emit(Load(Arg0));
      Emit(JumpEqual(value, 0, 1));
      Emit(Return(RET_ALLOW));
      Emit(Return(RET_EPERM));
    }

    method EmitGuards()
      requires Valid()
      modifies this, filter
      ensures Valid() && emitted == old(emitted) + Guards()
    {
      Emit(Load(Arch));
      Emit(JumpEqual(ARCH_X86_64, 1, 0));
      Emit(Return(RET_KILL_PROCESS));
      Emit(Load(Nr));
      Emit(JumpSet(X32_BIT, 0, 1));
      Emit(Return(RET_KILL_PROCESS));
      Emit(JumpEqual(SYS_CLONE3, 0, 1));
      Emit(Return(RET_ENOSYS));
    }

    method EmitClone()
      requires Valid()
      modifies this, filter
      ensures Valid() && emitted == old(emitted) + CloneRule()
    {
      Emit(JumpEqual(SYS_CLONE, 0, 4));
      Emit(Load(Arg0));
      Emit(JumpSet(CLONE_FORBIDDEN, 1, 0));
      Emit(Return(RET_ALLOW));
      Emit(Return(RET_EPERM));
    }

    method EmitIoctl()
      requires Valid()
      modifies this, filter
      ensures Valid() && emitted == old(emitted) + IoctlRule()
    {
      Emit(JumpEqual(SYS_IOCTL, 0, 7));
      Emit(Load(Arg1));
      Emit(JumpEqual(FIONBIO, 4, 0));
      Emit(JumpEqual(FIONREAD, 3, 0));
      Emit(JumpEqual(TCGETS, 2, 0));
      Emit(JumpEqual(TIOCGWINSZ, 1, 0));
      Emit(Return(RET_EPERM));
      Emit(Return(RET_ALLOW));
    }

    /** `seccomp`: the array holds the program for the allowlist exactly when it fits. */
    method Seccomp(allowed: seq<bv32>)
      requires Valid() && emitted == []
      modifies this, filter
      ensures Valid()
      ensures died <==> |allowed| > 240
      ensures !died ==> filter[..count] == Program(allowed)
    {
      EmitGuards();
      EmitClone();
      ArgumentEquals(SYS_SOCKETPAIR, AF_UNIX);
      EmitIoctl();
      ArgumentEquals(SYS_PRCTL, PR_SET_NAME);
      ghost var head := emitted;
      assert head == [] + Guards() + CloneRule() + ArgumentRule(SYS_SOCKETPAIR, AF_UNIX) + IoctlRule()
                     + ArgumentRule(SYS_PRCTL, PR_SET_NAME);
      for i := 0 to |allowed|
        invariant Valid() && emitted + AllowList(allowed[i..]) == head + AllowList(allowed)
      {
        assert allowed[i..][0] == allowed[i] && allowed[i..][1..] == allowed[i + 1..];
        ghost var before, later := emitted, AllowList(allowed[i + 1..]);
        Allow(allowed[i]);
        Associates(before, AllowRule(allowed[i]), later);
      }
      assert emitted + [] == emitted;
      Emit(Return(RET_EPERM));
      ProgramInOrder(allowed);
    }
  }

  lemma {:induction false} ProgramInOrder(allowed: seq<bv32>)
    ensures [] + Guards() + CloneRule() + ArgumentRule(SYS_SOCKETPAIR, AF_UNIX) + IoctlRule()
            + ArgumentRule(SYS_PRCTL, PR_SET_NAME) + AllowList(allowed) + [Return(RET_EPERM)]
         == Program(allowed)
  {
    var g, c, s, i, p := Guards(), CloneRule(), ArgumentRule(SYS_SOCKETPAIR, AF_UNIX), IoctlRule(), ArgumentRule(SYS_PRCTL, PR_SET_NAME);
    var l, r := AllowList(allowed), [Return(RET_EPERM)];
    assert [] + g == g;
    Associates(g + c + s + i + p, l, r);
    Associates(g + c + s + i, p, l + r);
    Associates(g + c + s, i, p + (l + r));
    Associates(g + c, s, i + (p + (l + r)));
    Associates(g, c, s + (i + (p + (l + r))));
  }

  // ---- The program decides the table ----

  /** The interpreter on what is left of the program: jumps are relative and only go forward. */
  function Run(p: seq<Instr>, a: bv32, d: Data): Option<bv32>
    decreases |p|
  {
    if p == [] then None
    else match p[0]
         case Load(f) => Run(p[1..], Fetch(f, d), d)
         case Return(v) => Some(v)
         case _ =>
           var next := 1 + Jump(p[0], a);
           if next <= |p| then Run(p[next..], a, d) else None
  }

  lemma {:induction false} ExecIsRun(p: seq<Instr>, pc: nat, a: bv32, d: Data)
    requires pc <= |p|
    ensures Exec(p, pc, a, d) == Run(p[pc..], a, d)
    decreases |p| - pc
  {
    if pc < |p| {
      match p[pc]
      case Load(f) => ExecIsRun(p, pc + 1, Fetch(f, d), d);
      case Return(v) =>
      case _ =>
        var next := pc + 1 + Jump(p[pc], a);
        if next <= |p| {
          ExecIsRun(p, next, a, d);
          assert p[pc..][next - pc..] == p[next..];
        }
    }
  }

  /** One instruction at the front of a program. */
  lemma {:induction false} Front(i: Instr, rest: seq<Instr>, a: bv32, d: Data)
    ensures Run([i] + rest, a, d) ==
            match i
            case Load(f) => Run(rest, Fetch(f, d), d)
            case Return(v) => Some(v)
            case _ => if Jump(i, a) <= |rest| then Run(rest[Jump(i, a)..], a, d) else None
  {
    var p := [i] + rest;
    assert p[1..] == rest;
    if !i.Load? && !i.Return? && Jump(i, a) <= |rest| {
      assert p[1 + Jump(i, a)..] == rest[Jump(i, a)..];
    }
  }

  lemma {:induction false} AllowDecides(nr: bv32, rest: seq<Instr>, d: Data)
    ensures Run(AllowRule(nr) + rest, d.nr, d) == if d.nr == nr then Some(RET_ALLOW) else Run(rest, d.nr, d)
  {
    hide Run;
    var tail := [Return(RET_ALLOW)] + rest;
    assert AllowRule(nr) + rest == [JumpEqual(nr, 0, 1)] + tail;
    Front(JumpEqual(nr, 0, 1), tail, d.nr, d);
    Front(Return(RET_ALLOW), rest, d.nr, d);
    assert tail[0..] == tail && tail[1..] == rest;
  }

  lemma {:induction false} AllowListDecides(allowed: seq<bv32>, d: Data)
    ensures Run(AllowList(allowed) + [Return(RET_EPERM)], d.nr, d)
         == Some(if d.nr in allowed then RET_ALLOW else RET_EPERM)
  {
    var last := [Return(RET_EPERM)];
    if allowed == [] {
      assert [] + last == last;
    } else {
      var more := AllowList(allowed[1..]) + last;
      assert AllowList(allowed) + last == AllowRule(allowed[0]) + more;
      AllowDecides(allowed[0], more, d);
      AllowListDecides(allowed[1..], d);
    }
  }

  lemma {:induction false} ArgumentDecides(nr: bv32, value: bv32, rest: seq<Instr>, d: Data)
    ensures Run(ArgumentRule(nr, value) + rest, d.nr, d)
         == if d.nr != nr then Run(rest, d.nr, d) else Some(if d.arg0.lo == value then RET_ALLOW else RET_EPERM)
  {
    hide Run;
    var r := ArgumentRule(nr, value);
    var t4 := [r[4]] + rest;
    var t3 := [r[3]] + t4;
    var t2 := [r[2]] + t3;
    var t1 := [r[1]] + t2;
    assert r + rest == [r[0]] + t1;
    Front(r[0], t1, d.nr, d);
    assert t1[0..] == t1 && t1[4..] == rest;
    Front(r[1], t2, d.nr, d);
    Front(r[2], t3, d.arg0.lo, d);
    assert t3[0..] == t3 && t3[1..] == t4;
    Front(r[3], t4, d.arg0.lo, d);
    Front(r[4], rest, d.arg0.lo, d);
  }

  lemma {:induction false} CloneDecides(rest: seq<Instr>, d: Data)
    ensures Run(CloneRule() + rest, d.nr, d)
         == if d.nr != SYS_CLONE then Run(rest, d.nr, d)
            else Some(if d.arg0.lo & CLONE_FORBIDDEN == 0 then RET_ALLOW else RET_EPERM)
  {
    hide Run;
    var r := CloneRule();
    var t4 := [r[4]] + rest;
    var t3 := [r[3]] + t4;
    var t2 := [r[2]] + t3;
    var t1 := [r[1]] + t2;
    assert r + rest == [r[0]] + t1;
    Front(r[0], t1, d.nr, d);
    assert t1[0..] == t1 && t1[4..] == rest;
    Front(r[1], t2, d.nr, d);
    Front(r[2], t3, d.arg0.lo, d);
    assert t3[0..] == t3 && t3[1..] == t4;
    Front(r[3], t4, d.arg0.lo, d);
    Front(r[4], rest, d.arg0.lo, d);
  }

  /** Each of the four request tests jumps to the same final allow. */
  lemma {:induction false} RequestsDecide(a: bv32, rest: seq<Instr>, d: Data)
    ensures Run(IoctlRule()[2..] + rest, a, d)
         == Some(if a in {FIONBIO, FIONREAD, TCGETS, TIOCGWINSZ} then RET_ALLOW else RET_EPERM)
  {
    hide Run;
    var r := IoctlRule();
    var t7 := [r[7]] + rest;
    var t6 := [r[6]] + t7;
    var t5 := [r[5]] + t6;
    var t4 := [r[4]] + t5;
    var t3 := [r[3]] + t4;
    assert r[2..] + rest == [r[2]] + t3;
    Front(r[7], rest, a, d);
    Front(r[6], t7, a, d);
    assert t6[0..] == t6 && t6[1..] == t7;
    Front(r[5], t6, a, d);
    assert t5[0..] == t5 && t5[2..] == t7;
    Front(r[4], t5, a, d);
    assert t4[0..] == t4 && t4[3..] == t7;
    Front(r[3], t4, a, d);
    assert t3[0..] == t3 && t3[4..] == t7;
    Front(r[2], t3, a, d);
  }

  lemma {:induction false} IoctlDecides(rest: seq<Instr>, d: Data)
    ensures Run(IoctlRule() + rest, d.nr, d)
         == if d.nr != SYS_IOCTL then Run(rest, d.nr, d)
            else Some(if d.arg1.lo in {FIONBIO, FIONREAD, TCGETS, TIOCGWINSZ} then RET_ALLOW else RET_EPERM)
  {
    hide Run;
    var r := IoctlRule();
    var t2 := r[2..] + rest;
    var t1 := [r[1]] + t2;
    assert r + rest == [r[0]] + t1;
    Front(r[0], t1, d.nr, d);
    assert t1[0..] == t1 && t1[7..] == rest;
    Front(r[1], t2, d.nr, d);
    RequestsDecide(d.arg1.lo, rest, d);
  }

  lemma {:induction false} GuardsDecide(rest: seq<Instr>, a: bv32, d: Data)
    ensures Run(Guards() + rest, a, d)
         == if d.arch != ARCH_X86_64 || d.nr & X32_BIT != 0 then Some(RET_KILL_PROCESS)
            else if d.nr == SYS_CLONE3 then Some(RET_ENOSYS)
            else Run(rest, d.nr, d)
  {
    hide Run;
    var r := Guards();
    var t7 := [r[7]] + rest;
    var t6 := [r[6]] + t7;
    var t5 := [r[5]] + t6;
    var t4 := [r[4]] + t5;
    var t3 := [r[3]] + t4;
    var t2 := [r[2]] + t3;
    var t1 := [r[1]] + t2;
    assert r + rest == [r[0]] + t1;
    Front(r[0], t1, a, d);
    Front(r[1], t2, d.arch, d);
    assert t2[0..] == t2 && t2[1..] == t3;
    Front(r[2], t3, d.arch, d);
    Front(r[3], t4, d.arch, d);
    Front(r[4], t5, d.nr, d);
    assert t5[0..] == t5 && t5[1..] == t6;
    Front(r[5], t6, d.nr, d);
    Front(r[6], t7, d.nr, d);
    assert t7[0..] == t7 && t7[1..] == rest;
    Front(r[7], rest, d.nr, d);
  }

  /** For every allowlist and every call: the program never runs off its end, and its verdict is
      the decision table's. */
  lemma {:induction false} FilterDecidesTable(allowed: seq<bv32>, a: bv32, d: Data)
    ensures Exec(Program(allowed), 0, a, d) == Some(Decide(allowed, d))
  {
    var p6 := AllowList(allowed) + [Return(RET_EPERM)];
    var p5 := ArgumentRule(SYS_PRCTL, PR_SET_NAME) + p6;
    var p4 := IoctlRule() + p5;
    var p3 := ArgumentRule(SYS_SOCKETPAIR, AF_UNIX) + p4;
    var p2 := CloneRule() + p3;
    ExecIsRun(Program(allowed), 0, a, d);
    assert Program(allowed)[0..] == Guards() + p2;
    GuardsDecide(p2, a, d);
    CloneDecides(p3, d);
    ArgumentDecides(SYS_SOCKETPAIR, AF_UNIX, p4, d);
    IoctlDecides(p5, d);
    ArgumentDecides(SYS_PRCTL, PR_SET_NAME, p6, d);
    AllowListDecides(allowed, d);
  }
}
