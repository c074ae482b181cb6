/** A program on the CPU while the memory also serves other processes: their turns, accesses, faults, replacements,
    creations and ends may come between any two of its turns, and its own faults are served piece by piece among
    theirs. */
module CpuAmongOthers {
  import opened Bytes
  import opened Paging
  import opened PagingStructure
  import opened PagingInvariant
  import opened PagingRuns
  import opened Cpu

  /** A turn of the CPU for the process; a message of the memory that another process or the file system causes; or a
      turn of another process that reaches no memory. The registers are those of the CPU after the step, which are
      nobody's own. */
  datatype Step = Own | Other(event: Event, registers: Registers) | Elsewhere(registers: Registers)

  predicate NotOf(pid: Pid, e: Event) {
    match e
    case Created(p, _, _) => p != pid
    case Faulted(page) => page.pid != pid
    case Stored(p, _, _) => p != pid
    case Loaded(p, _) => p != pid
    case Missed(p, _) => p != pid
    case Finished(p) => p != pid
    case SwapAnswered | PageArrived => true
  }

  /** None of the pages of the process is being loaded, so the kernel may send it to the CPU. */
  predicate NothingAwaited(s: Memory, pid: Pid) {
    forall p :: p in s.pending ==> p.pid != pid
  }

  /** The page that the next instruction addresses. */
  function NextPage(c: Config, pid: Pid, program: seq<Instruction>, pc: Word): PageId
    requires c.pageSize > 0 && MemoryNext(program, pc)
  {
    PageOf(c, pid, program[ToInt(pc)].address)
  }

  predicate CycleFits(c: Config, pid: Pid, program: seq<Instruction>, m: Machine)
    requires c.pageSize > 0
  {
    MemoryNext(program, m.pc) ==>
      var p, a := NextPage(c, pid, program, m.pc), program[ToInt(m.pc)].address;
      p in m.memory.pages && (Resident(m.memory, p) ==> Addressable(c, m.memory, p, Displacement(c, a), 4))
  }

  /** The cycle of the CPU; when it ends in a fault, the page is asked for, and the process waits until it has
      arrived. */
  function OwnTurn(c: Config, pid: Pid, program: seq<Instruction>, m: Machine): Machine
    requires c.pageSize > 0 && CycleFits(c, pid, program, m)
  {
    var t := CpuCycle(c, pid, program, m).0;
    if WillFault(c, pid, program, m) then t.(memory := RequestLoad(c, m.memory, NextPage(c, pid, program, m.pc))) else t
  }

  ghost predicate StepNext(c: Config, pid: Pid, program: seq<Instruction>, m: Machine, step: Step, t: Machine)
    requires WellFormed(c, m.memory)
  {
    match step
    case Own => NothingAwaited(m.memory, pid) && CycleFits(c, pid, program, m) && t == OwnTurn(c, pid, program, m)
    case Other(e, registers) =>
      NotOf(pid, e) && Next(c, m.memory, e, t.memory) && t == m.(memory := t.memory, regs := registers)
    case Elsewhere(registers) => t == m.(regs := registers)
  }

  /** What is asked of the messages in between: replacements take out resident pages, which FIFO always does, and
      creations take no block that is needed. */
  ghost predicate Spared(c: Config, m: Machine, step: Step) {
    step.Other? ==> (c.algorithm.Fifo? || VictimResident(m.memory, step.event)) && CreationSpares(m.memory, step.event)
  }

  /** The registers are left as they were for the process. */
  predicate RegistersKept(m: Machine, step: Step) {
    step.Own? || step.registers == m.regs
  }

  /** Paging shows the flat memory of every process, of which this one has so many pages. */
  ghost predicate Sound(c: Config, pid: Pid, size: nat, s: Memory, flat: Flat) {
    && Inv(c, s) && Refines(c, s, flat)
    && (c.algorithm.Fifo? ==> Queued(s))
    && pid in flat && pid in s.sizes && s.sizes[pid] == size
  }

  /** Registers, program counter, and the bytes of the process are those of g; only a process that waits for a page
      carries a fault. */
  predicate Shows(pid: Pid, program: seq<Instruction>, t: Machine, g: FlatMachine, flat: Flat) {
    && t.regs == g.regs && t.pc == g.pc && (t.faulted.Some? ==> MemoryNext(program, t.pc))
    && pid in flat && flat[pid] == g.bytes
  }

  /** The machine over paged memory has the registers, the program counter and the memory of the flat one. */
  ghost predicate Matches(c: Config, pid: Pid, program: seq<Instruction>, size: nat, m: Machine, f: FlatMachine,
                          flat: Flat) {
    Sound(c, pid, size, m.memory, flat) && Shows(pid, program, m, f, flat)
  }

  // ----- one message of the memory

  lemma VictimFound(c: Config, s: Memory, e: Event)
    requires Structure(c, s) && (c.algorithm.Fifo? ==> Queued(s)) && (c.algorithm.Fifo? || VictimResident(s, e))
    ensures VictimResident(s, e)
  {
    if c.algorithm.Fifo? && LowestClear(s.bitmap, 0).None? {
      QueuedHead(c, s);
    }
  }

  lemma MessageKeeps(c: Config, s: Memory, e: Event, t: Memory, flat: Flat)
    requires Inv(c, s) && Refines(c, s, flat) && (c.algorithm.Fifo? ==> Queued(s))
    requires Next(c, s, e, t) && (c.algorithm.Fifo? || VictimResident(s, e)) && CreationSpares(s, e)
    ensures Inv(c, t) && Refines(c, t, FlatStep(c, flat, e))
    ensures c.algorithm.Fifo? ==> Queued(t)
  {
    VictimFound(c, s, e);
    StepKeeps(c, s, e, t, flat);
    if c.algorithm.Fifo? {
      QueuedStep(c, s, e, t);
    }
  }

  lemma OthersSpare(c: Config, s: Memory, e: Event, t: Memory, flat: Flat, pid: Pid)
    requires WellFormed(c, s) && Next(c, s, e, t) && NotOf(pid, e) && pid in flat && pid in s.sizes
    ensures pid in FlatStep(c, flat, e) && FlatStep(c, flat, e)[pid] == flat[pid]
    ensures pid in t.sizes && t.sizes[pid] == s.sizes[pid]
  {
    match e
    case PageArrived => ArriveSizes(c, s);
    case _ =>
  }

  lemma ArriveSizes(c: Config, s: Memory)
    requires WellFormed(c, s) && s.replies != [] &&
      (s.pending != [] && LowestClear(s.bitmap, 0).None? ==> s.order != [])
    ensures Arrive(c, s).sizes == s.sizes
  {
  }

  lemma OtherSound(c: Config, pid: Pid, program: seq<Instruction>, size: nat, m: Machine, step: Step, t: Machine,
                   flat: Flat)
    requires Sound(c, pid, size, m.memory, flat) && step.Other?
    requires StepNext(c, pid, program, m, step, t) && Spared(c, m, step)
    ensures Sound(c, pid, size, t.memory, FlatStep(c, flat, step.event)) &&
      FlatStep(c, flat, step.event)[pid] == flat[pid]
  {
    MessageKeeps(c, m.memory, step.event, t.memory, flat);
    OthersSpare(c, m.memory, step.event, t.memory, flat, pid);
  }

  // ----- one turn of the process

  lemma FaultSound(c: Config, pid: Pid, program: seq<Instruction>, size: nat, m: Machine, t: Machine, flat: Flat)
    requires Sound(c, pid, size, m.memory, flat) && StepNext(c, pid, program, m, Own, t) &&
      WillFault(c, pid, program, m)
    ensures Sound(c, pid, size, t.memory, flat)
  {
    var p := NextPage(c, pid, program, m.pc);
    MessageKeeps(c, m.memory, Faulted(p), RequestLoad(c, m.memory, p), flat);
    assert FlatStep(c, flat, Faulted(p)) == flat;
  }

  lemma LoadCycle(c: Config, pid: Pid, program: seq<Instruction>, m: Machine)
    requires c.pageSize > 0 && MemoryNext(program, m.pc) && program[ToInt(m.pc)].MovInOp? &&
      !WillFault(c, pid, program, m)
    requires CycleFits(c, pid, program, m)
    ensures OwnTurn(c, pid, program, m).memory == MovIn(c, m.memory, pid, program[ToInt(m.pc)].address)
  {
  }

  lemma StoreCycle(c: Config, pid: Pid, program: seq<Instruction>, m: Machine)
    requires c.pageSize > 0 && MemoryNext(program, m.pc) && program[ToInt(m.pc)].MovOutOp? &&
      !WillFault(c, pid, program, m)
    requires CycleFits(c, pid, program, m)
    ensures OwnTurn(c, pid, program, m).memory ==
            MovOut(c, m.memory, pid, program[ToInt(m.pc)].address, m.regs.Get(program[ToInt(m.pc)].src))
  {
  }

  lemma LoadSound(c: Config, pid: Pid, program: seq<Instruction>, size: nat, m: Machine, t: Machine, flat: Flat)
    requires Sound(c, pid, size, m.memory, flat) && StepNext(c, pid, program, m, Own, t)
    requires InRange(c, program, size, m.pc) && MemoryNext(program, m.pc) && program[ToInt(m.pc)].MovInOp?
    requires !WillFault(c, pid, program, m)
    ensures Sound(c, pid, size, t.memory, flat)
  {
    var a := program[ToInt(m.pc)].address;
    LoadCycle(c, pid, program, m);
    MessageKeeps(c, m.memory, Loaded(pid, a), t.memory, flat);
    assert FlatStep(c, flat, Loaded(pid, a)) == flat;
  }

  /** The flat memories after the store that the process makes next. */
  ghost function StoredFlat(c: Config, pid: Pid, program: seq<Instruction>, m: Machine, flat: Flat): Flat
    requires MemoryNext(program, m.pc) && program[ToInt(m.pc)].MovOutOp?
  {
    FlatStep(c, flat, Stored(pid, program[ToInt(m.pc)].address, m.regs.Get(program[ToInt(m.pc)].src)))
  }

  lemma StoreSound(c: Config, pid: Pid, program: seq<Instruction>, size: nat, m: Machine, t: Machine, flat: Flat)
    requires Sound(c, pid, size, m.memory, flat) && StepNext(c, pid, program, m, Own, t)
    requires InRange(c, program, size, m.pc) && MemoryNext(program, m.pc) && program[ToInt(m.pc)].MovOutOp?
    requires !WillFault(c, pid, program, m)
    ensures Sound(c, pid, size, t.memory, StoredFlat(c, pid, program, m, flat))
  {
    var a, w := program[ToInt(m.pc)].address, m.regs.Get(program[ToInt(m.pc)].src);
    StoreCycle(c, pid, program, m);
    MessageKeeps(c, m.memory, Stored(pid, a, w), t.memory, flat);
  }

  /** The flat memories after a turn of the process. */
  ghost function FlatTurn(c: Config, pid: Pid, program: seq<Instruction>, m: Machine, flat: Flat): Flat
    requires c.pageSize > 0
  {
    if MemoryNext(program, m.pc) && program[ToInt(m.pc)].MovOutOp? && !WillFault(c, pid, program, m)
    then StoredFlat(c, pid, program, m, flat) else flat
  }

  lemma PlainMemory(c: Config, pid: Pid, program: seq<Instruction>, m: Machine)
    requires c.pageSize > 0 && !MemoryNext(program, m.pc)
    ensures CpuCycle(c, pid, program, m).0.memory == m.memory
  {
  }

  lemma OwnSound(c: Config, pid: Pid, program: seq<Instruction>, size: nat, m: Machine, t: Machine, flat: Flat)
    requires Sound(c, pid, size, m.memory, flat) && StepNext(c, pid, program, m, Own, t)
    requires InRange(c, program, size, m.pc)
    ensures Sound(c, pid, size, t.memory, FlatTurn(c, pid, program, m, flat))
  {
    if WillFault(c, pid, program, m) {
      FaultSound(c, pid, program, size, m, t, flat);
    } else if !MemoryNext(program, m.pc) {
      PlainMemory(c, pid, program, m);
    } else if program[ToInt(m.pc)].MovInOp? {
      LoadSound(c, pid, program, size, m, t, flat);
    } else {
      StoreSound(c, pid, program, size, m, t, flat);
    }
  }

  /** The process may take its turn: no fault comes, and its word lies in its bytes. */
  ghost predicate Ready(c: Config, pid: Pid, program: seq<Instruction>, m: Machine, f: FlatMachine)
    requires c.pageSize > 0
  {
    && MemoryNext(program, m.pc) && CycleFits(c, pid, program, m) && !WillFault(c, pid, program, m)
    && 0 <= program[ToInt(m.pc)].address && program[ToInt(m.pc)].address + 4 <= |f.bytes|
  }

  lemma StoreShows(c: Config, pid: Pid, program: seq<Instruction>, m: Machine, f: FlatMachine, flat: Flat)
    requires c.pageSize > 0 && Shows(pid, program, m, f, flat) && Ready(c, pid, program, m, f)
    requires program[ToInt(m.pc)].MovOutOp?
    ensures Shows(pid, program, OwnTurn(c, pid, program, m), FlatCycle(program, f), FlatTurn(c, pid, program, m, flat))
  {
    var a, w := program[ToInt(m.pc)].address, m.regs.Get(program[ToInt(m.pc)].src);
    MovOutCycle(c, pid, program, m, f, a, w);
  }

  lemma LoadShows(c: Config, pid: Pid, program: seq<Instruction>, m: Machine, f: FlatMachine, flat: Flat)
    requires c.pageSize > 0 && Shows(pid, program, m, f, flat) && Ready(c, pid, program, m, f)
    requires program[ToInt(m.pc)].MovInOp?
    requires var a := program[ToInt(m.pc)].address;
      WordAt(c, m.memory, PageOf(c, pid, a), Displacement(c, a)) == WordOf(f.bytes[a..a + 4])
    ensures Shows(pid, program, OwnTurn(c, pid, program, m), FlatCycle(program, f), flat)
  {
    MovInCycle(c, pid, program, m, f, program[ToInt(m.pc)].address);
  }

  lemma PlainShows(c: Config, pid: Pid, program: seq<Instruction>, m: Machine, f: FlatMachine, flat: Flat)
    requires c.pageSize > 0 && Shows(pid, program, m, f, flat) && !MemoryNext(program, m.pc) &&
      CycleFits(c, pid, program, m)
    ensures Shows(pid, program, OwnTurn(c, pid, program, m), FlatCycle(program, f), flat)
  {
    PlainCycle(c, pid, program, m, f);
  }

  lemma FaultShows(c: Config, pid: Pid, program: seq<Instruction>, m: Machine, f: FlatMachine, flat: Flat)
    requires c.pageSize > 0 && Shows(pid, program, m, f, flat) && CycleFits(c, pid, program, m) &&
      WillFault(c, pid, program, m)
    ensures Shows(pid, program, OwnTurn(c, pid, program, m), f, flat)
  {
  }

  lemma ReadyInRange(c: Config, pid: Pid, program: seq<Instruction>, size: nat, m: Machine, f: FlatMachine, flat: Flat)
    requires Sound(c, pid, size, m.memory, flat) && f.bytes == flat[pid] && CycleFits(c, pid, program, m)
    requires InRange(c, program, size, m.pc) && MemoryNext(program, m.pc) && !WillFault(c, pid, program, m)
    ensures Ready(c, pid, program, m, f)
    ensures var a := program[ToInt(m.pc)].address;
      WordAt(c, m.memory, PageOf(c, pid, a), Displacement(c, a)) == WordOf(f.bytes[a..a + 4])
  {
    FlatWord(c, m.memory, flat, pid, program[ToInt(m.pc)].address);
  }

  /** What a turn does to registers, program counter and the bytes of the process is a fault, which changes nothing it
      can see, or one instruction of the flat interpreter. */
  lemma OwnCycle(c: Config, pid: Pid, program: seq<Instruction>, size: nat, m: Machine, f: FlatMachine, flat: Flat)
    requires Sound(c, pid, size, m.memory, flat) && Shows(pid, program, m, f, flat)
    requires CycleFits(c, pid, program, m) && InRange(c, program, size, m.pc)
    ensures Shows(pid, program, OwnTurn(c, pid, program, m),
                  if WillFault(c, pid, program, m) then f else FlatCycle(program, f),
                  FlatTurn(c, pid, program, m, flat))
  {
    if WillFault(c, pid, program, m) {
      FaultShows(c, pid, program, m, f, flat);
    } else if !MemoryNext(program, m.pc) {
      PlainShows(c, pid, program, m, f, flat);
    } else {
      ReadyInRange(c, pid, program, size, m, f, flat);
      if program[ToInt(m.pc)].MovInOp? {
        LoadShows(c, pid, program, m, f, flat);
      } else {
        StoreShows(c, pid, program, m, f, flat);
      }
    }
  }

  lemma StepMatches(c: Config, pid: Pid, program: seq<Instruction>, size: nat, m: Machine, step: Step, t: Machine,
                    f: FlatMachine, flat: Flat, g: FlatMachine) returns (after: Flat)
    requires Matches(c, pid, program, size, m, f, flat) && StepNext(c, pid, program, m, step, t)
    requires Spared(c, m, step) && RegistersKept(m, step) && InRange(c, program, size, f.pc)
    requires g == if step.Own? && !WillFault(c, pid, program, m) then FlatCycle(program, f) else f
    ensures Matches(c, pid, program, size, t, g, after)
  {
    match step
    case Own =>
      after := FlatTurn(c, pid, program, m, flat);
      OwnSound(c, pid, program, size, m, t, flat);
      OwnCycle(c, pid, program, size, m, f, flat);
    case Other(e, _) =>
      after := FlatStep(c, flat, e);
      OtherSound(c, pid, program, size, m, step, t, flat);
    case Elsewhere(_) => after := flat;
  }

  // ----- whole runs

  ghost predicate IsSharedRun(c: Config, pid: Pid, program: seq<Instruction>, steps: seq<Step>, states: seq<Machine>) {
    && |states| == |steps| + 1
    && (forall i :: 0 <= i < |states| ==> WellFormed(c, states[i].memory))
    && (forall i :: 0 <= i < |steps| ==> StepNext(c, pid, program, states[i], steps[i], states[i + 1]))
    && (forall i :: 0 <= i < |steps| ==> Spared(c, states[i], steps[i]))
  }

  /** The registers as the process left them at the end of its last turn before step i. */
  function LeftBehind(steps: seq<Step>, states: seq<Machine>, i: nat): Registers
    requires i <= |steps| < |states|
  {
    if i == 0 || steps[i - 1].Own? then states[i].regs else LeftBehind(steps, states, i - 1)
  }

  /** The machine as the process would have it: with the registers it left. */
  function Mine(steps: seq<Step>, states: seq<Machine>, i: nat): Machine
    requires i <= |steps| < |states|
  {
    states[i].(regs := LeftBehind(steps, states, i))
  }

  predicate FoundAsLeft(steps: seq<Step>, states: seq<Machine>, i: nat)
    requires i < |steps| < |states|
  {
    steps[i].Own? ==> states[i].regs == LeftBehind(steps, states, i)
  }

  predicate FoundUpTo(steps: seq<Step>, states: seq<Machine>, i: nat)
    requires i <= |steps| < |states|
  {
    forall k :: 0 <= k < i ==> FoundAsLeft(steps, states, k)
  }

  /** Whenever its turn comes, the process finds the registers as it left them, whatever they held meanwhile. */
  predicate RegistersGivenBack(steps: seq<Step>, states: seq<Machine>)
    requires |steps| < |states|
  {
    FoundUpTo(steps, states, |steps|)
  }

  /** How many instructions of the process the first i steps executed. */
  function ExecutedIn(c: Config, pid: Pid, program: seq<Instruction>, steps: seq<Step>, states: seq<Machine>,
                      i: nat): nat
    requires c.pageSize > 0 && i <= |steps| <= |states|
  {
    if i == 0 then 0
    else
      ExecutedIn(c, pid, program, steps, states, i - 1) +
      if steps[i - 1].Own? && !WillFault(c, pid, program, states[i - 1]) then 1 else 0
  }

  lemma FlatRunNext(program: seq<Instruction>, f: FlatMachine, n: nat)
    ensures FlatRun(program, f, n + 1) == FlatCycle(program, FlatRun(program, f, n))
  {
  }

  lemma StillInRange(c: Config, program: seq<Instruction>, size: nat, f: FlatMachine, n: nat)
    requires c.pageSize > 0 && AlwaysInRange(c, program, size, f)
    ensures InRange(c, program, size, FlatRun(program, f, n).pc)
  {
  }

  /** The flat machine that the process is compared with in state i. */
  ghost function Target(c: Config, pid: Pid, program: seq<Instruction>, steps: seq<Step>, states: seq<Machine>,
                        f: FlatMachine, i: nat): FlatMachine
    requires c.pageSize > 0 && i <= |steps| <= |states|
  {
    FlatRun(program, f, ExecutedIn(c, pid, program, steps, states, i))
  }

  lemma TargetNext(c: Config, pid: Pid, program: seq<Instruction>, size: nat, steps: seq<Step>, states: seq<Machine>,
                   f: FlatMachine, i: nat)
    requires c.pageSize > 0 && i < |steps| <= |states| && AlwaysInRange(c, program, size, f)
    ensures var g := Target(c, pid, program, steps, states, f, i);
      && InRange(c, program, size, g.pc)
      && Target(c, pid, program, steps, states, f, i + 1) ==
         if steps[i].Own? && !WillFault(c, pid, program, states[i]) then FlatCycle(program, g) else g
  {
    var n := ExecutedIn(c, pid, program, steps, states, i);
    StillInRange(c, program, size, f, n);
    FlatRunNext(program, f, n);
  }

  /** A step as the process would have it: the others leave its registers alone. */
  function MyStep(steps: seq<Step>, states: seq<Machine>, i: nat): Step
    requires i < |steps| < |states|
  {
    match steps[i]
    case Own => Own
    case Other(e, _) => Other(e, LeftBehind(steps, states, i))
    case Elsewhere(_) => Elsewhere(LeftBehind(steps, states, i))
  }

  lemma MyStepNext(c: Config, pid: Pid, program: seq<Instruction>, steps: seq<Step>, states: seq<Machine>, i: nat)
    requires IsSharedRun(c, pid, program, steps, states) && i < |steps| && FoundAsLeft(steps, states, i)
    ensures var m, step := Mine(steps, states, i), MyStep(steps, states, i);
      && WellFormed(c, m.memory) && StepNext(c, pid, program, m, step, Mine(steps, states, i + 1))
      && Spared(c, m, step) && RegistersKept(m, step)
  {
    var step := steps[i];
    assert StepNext(c, pid, program, states[i], step, states[i + 1]) && Spared(c, states[i], step);
  }

  lemma StepAt(c: Config, pid: Pid, program: seq<Instruction>, size: nat, steps: seq<Step>, states: seq<Machine>,
               i: nat, f: FlatMachine, flat: Flat, g: FlatMachine) returns (after: Flat)
    requires c.pageSize > 0 && IsSharedRun(c, pid, program, steps, states) && i < |steps|
    requires Matches(c, pid, program, size, Mine(steps, states, i), f, flat) && InRange(c, program, size, f.pc)
    requires FoundAsLeft(steps, states, i)
    requires g == if steps[i].Own? && !WillFault(c, pid, program, states[i]) then FlatCycle(program, f) else f
    ensures Matches(c, pid, program, size, Mine(steps, states, i + 1), g, after)
  {
    MyStepNext(c, pid, program, steps, states, i);
    after := StepMatches(c, pid, program, size, Mine(steps, states, i), MyStep(steps, states, i),
                         Mine(steps, states, i + 1), f, flat, g);
  }

  /** The process follows its flat run as long as it has found its registers as it left them. */
  lemma {:induction false} Followed(c: Config, pid: Pid, program: seq<Instruction>, size: nat, steps: seq<Step>,
                                    states: seq<Machine>, f: FlatMachine, flat: Flat, i: nat) returns (after: Flat)
    requires c.pageSize > 0 && IsSharedRun(c, pid, program, steps, states) && i <= |steps|
    requires AlwaysInRange(c, program, size, f) && Matches(c, pid, program, size, states[0], f, flat)
    requires FoundUpTo(steps, states, i)
    ensures Matches(c, pid, program, size, Mine(steps, states, i), Target(c, pid, program, steps, states, f, i), after)
  {
    after := flat;
    if i > 0 {
      var before := Followed(c, pid, program, size, steps, states, f, flat, i - 1);
      TargetNext(c, pid, program, size, steps, states, f, i - 1);
      assert FoundAsLeft(steps, states, i - 1);
      var g, h := Target(c, pid, program, steps, states, f, i - 1), Target(c, pid, program, steps, states, f, i);
      after := StepAt(c, pid, program, size, steps, states, i - 1, g, before, h);
    }
  }

  /** Main theorem: whatever other processes do in between, as long as the process finds the registers as it left them
      whenever its turn comes, after any number of steps it has the program counter and the memory of the flat
      interpreter after as many instructions as it has executed, and left the registers that the interpreter has. */
  lemma ProgramAmongOthers(c: Config, pid: Pid, program: seq<Instruction>, size: nat, steps: seq<Step>,
                           states: seq<Machine>, f: FlatMachine, flat: Flat, i: nat) returns (after: Flat)
    requires c.pageSize > 0 && IsSharedRun(c, pid, program, steps, states) && i <= |steps|
    requires AlwaysInRange(c, program, size, f) && Matches(c, pid, program, size, states[0], f, flat)
    requires RegistersGivenBack(steps, states)
    ensures Matches(c, pid, program, size, Mine(steps, states, i), Target(c, pid, program, steps, states, f, i), after)
  {
    after := Followed(c, pid, program, size, steps, states, f, flat, i);
  }

  /** The process matches its flat run in state i, with the registers that the CPU has. */
  ghost predicate OnTrack(c: Config, pid: Pid, program: seq<Instruction>, size: nat, steps: seq<Step>,
                          states: seq<Machine>, f: FlatMachine, i: nat)
    requires c.pageSize > 0 && i <= |steps| < |states|
  {
    exists flat :: Matches(c, pid, program, size, states[i], Target(c, pid, program, steps, states, f, i), flat)
  }

  /** In each state in which its turn comes. */
  ghost predicate OnTrackAtItsTurns(c: Config, pid: Pid, program: seq<Instruction>, size: nat, steps: seq<Step>,
                                    states: seq<Machine>, f: FlatMachine)
    requires c.pageSize > 0 && |steps| < |states|
  {
    forall i :: 0 <= i < |steps| && steps[i].Own? ==> OnTrack(c, pid, program, size, steps, states, f, i)
  }

  lemma SameRegisters(c: Config, pid: Pid, program: seq<Instruction>, size: nat, m: Machine, n: Machine, g: FlatMachine,
                      before: Flat, after: Flat)
    requires Matches(c, pid, program, size, m, g, before) && Matches(c, pid, program, size, n, g, after)
    ensures m.regs == n.regs
  {
  }

  lemma FoundAt(c: Config, pid: Pid, program: seq<Instruction>, size: nat, steps: seq<Step>, states: seq<Machine>,
                f: FlatMachine, flat: Flat, i: nat)
    requires c.pageSize > 0 && IsSharedRun(c, pid, program, steps, states) && i < |steps|
    requires AlwaysInRange(c, program, size, f) && Matches(c, pid, program, size, states[0], f, flat)
    requires OnTrackAtItsTurns(c, pid, program, size, steps, states, f)
    requires FoundUpTo(steps, states, i)
    ensures FoundUpTo(steps, states, i + 1)
  {
    if steps[i].Own? {
      assert OnTrack(c, pid, program, size, steps, states, f, i);
      var g := Target(c, pid, program, steps, states, f, i);
      var left := Followed(c, pid, program, size, steps, states, f, flat, i);
      var found :| Matches(c, pid, program, size, states[i], g, found);
      SameRegisters(c, pid, program, size, states[i], Mine(steps, states, i), g, found, left);
    }
  }

  lemma {:induction false} FoundSoFar(c: Config, pid: Pid, program: seq<Instruction>, size: nat, steps: seq<Step>,
                                      states: seq<Machine>, f: FlatMachine, flat: Flat, i: nat)
    requires c.pageSize > 0 && IsSharedRun(c, pid, program, steps, states) && i <= |steps|
    requires AlwaysInRange(c, program, size, f) && Matches(c, pid, program, size, states[0], f, flat)
    requires OnTrackAtItsTurns(c, pid, program, size, steps, states, f)
    ensures FoundUpTo(steps, states, i)
  {
    if i > 0 {
      FoundSoFar(c, pid, program, size, steps, states, f, flat, i - 1);
      FoundAt(c, pid, program, size, steps, states, f, flat, i - 1);
    }
  }

  /** And only as long: whenever its turn comes the process is on the track of its flat run if and only if whenever
      its turn comes it finds the registers as it left them. */
  lemma OnTrackIff(c: Config, pid: Pid, program: seq<Instruction>, size: nat, steps: seq<Step>, states: seq<Machine>,
                   f: FlatMachine, flat: Flat)
    requires c.pageSize > 0 && IsSharedRun(c, pid, program, steps, states)
    requires AlwaysInRange(c, program, size, f) && Matches(c, pid, program, size, states[0], f, flat)
    ensures OnTrackAtItsTurns(c, pid, program, size, steps, states, f) <==> RegistersGivenBack(steps, states)
  {
    if RegistersGivenBack(steps, states) {
      forall i | 0 <= i < |steps| && steps[i].Own? ensures OnTrack(c, pid, program, size, steps, states, f, i) {
        var after := ProgramAmongOthers(c, pid, program, size, steps, states, f, flat, i);
        assert FoundAsLeft(steps, states, i) && Mine(steps, states, i) == states[i];
      }
    }
    if OnTrackAtItsTurns(c, pid, program, size, steps, states, f) {
      FoundSoFar(c, pid, program, size, steps, states, f, flat, |steps|);
    }
  }

  /** The CPU does not keep them: a turn of another process that sets a register sets it for everybody. */
  lemma RegistersAreShared(c: Config, pid: Pid, program: seq<Instruction>, m: Machine, other: Pid, value: Int32)
    requires WellFormed(c, m.memory) && other != pid
    ensures var its := m.(pc := 0, faulted := None);
      var registers := CpuCycle(c, other, [Set(AX, value)], its).0.regs;
      && StepNext(c, pid, program, m, Elsewhere(registers), m.(regs := registers))
      && (RegistersKept(m, Elsewhere(registers)) <==> m.regs.Get(AX) == ToWord(value))
  {
    assert m.regs == Registers(m.regs.ax, m.regs.bx, m.regs.cx, m.regs.dx);
  }

  /** Such a machine exists for every process in every state of every run of the memory process, whatever is in
      flight. */
  lemma RunsStartSharedRuns(c: Config, events: seq<Event>, states: seq<Memory>, i: nat, pid: Pid,
                            program: seq<Instruction>, regs: Registers, pc: Word)
    requires IsTrace(c, events, states) && (c.algorithm.Fifo? || VictimsResident(events, states))
    requires CreationsSpare(events, states) && i <= |events| && pid in states[i].sizes
    ensures var flat := FlatAfter(c, events[..i]);
      pid in flat && Matches(c, pid, program, states[i].sizes[pid], Machine(regs, pc, states[i], None),
                             FlatMachine(regs, pc, flat[pid]), flat)
  {
    PagingIsInvisible(c, events, states, i);
    if c.algorithm.Fifo? {
      QueuedKept(c, events, states, i);
    }
  }

  // ----- the memory, whatever happens to the registers

  /** The turns of the process among the first i steps stayed inside its pages. */
  ghost predicate StaysInRange(c: Config, program: seq<Instruction>, size: nat, steps: seq<Step>,
                               states: seq<Machine>, i: nat)
    requires c.pageSize > 0 && i <= |steps| <= |states|
  {
    forall k :: 0 <= k < i && steps[k].Own? ==> InRange(c, program, size, states[k].pc)
  }

  /** Paging goes on showing the flat memory of every process, whatever the registers hold, as long as addresses stay
      inside. */
  lemma {:induction false} MemoryStaysSound(c: Config, pid: Pid, program: seq<Instruction>, size: nat, steps: seq<Step>,
                                            states: seq<Machine>, flat: Flat, i: nat) returns (after: Flat)
    requires c.pageSize > 0 && IsSharedRun(c, pid, program, steps, states) && i <= |steps|
    requires StaysInRange(c, program, size, steps, states, i) && Sound(c, pid, size, states[0].memory, flat)
    ensures Sound(c, pid, size, states[i].memory, after)
  {
    after := flat;
    if i > 0 {
      var before := MemoryStaysSound(c, pid, program, size, steps, states, flat, i - 1);
      after := StepSound(c, pid, program, size, states[i - 1], steps[i - 1], states[i], before);
    }
  }

  lemma StepSound(c: Config, pid: Pid, program: seq<Instruction>, size: nat, m: Machine, step: Step, t: Machine,
                  flat: Flat)
    returns (after: Flat)
    requires c.pageSize > 0 && Sound(c, pid, size, m.memory, flat) && StepNext(c, pid, program, m, step, t)
    requires Spared(c, m, step) && (step.Own? ==> InRange(c, program, size, m.pc))
    ensures Sound(c, pid, size, t.memory, after)
  {
    match step
    case Own => after := FlatTurn(c, pid, program, m, flat); OwnSound(c, pid, program, size, m, t, flat);
    case Other(e, _) => after := FlatStep(c, flat, e); OtherSound(c, pid, program, size, m, step, t, flat);
    case Elsewhere(_) => after := flat;
  }

  // ----- how often an instruction faults

  /** The message is a replacement that takes out p. */
  predicate TakesOut(s: Memory, e: Event, p: PageId) {
    e.PageArrived? && LowestClear(s.bitmap, 0).None? && s.order != [] && s.order[0] == p
  }

  predicate AwaitedOrThere(s: Memory, p: PageId) {
    p in s.pending || Resident(s, p)
  }

  lemma AwaitedArrives(c: Config, s: Memory, p: PageId)
    requires Structure(c, s) && s.replies != [] && (LowestClear(s.bitmap, 0).None? ==> HeadResident(s))
    requires AwaitedOrThere(s, p) && !TakesOut(s, PageArrived, p)
    ensures AwaitedOrThere(Arrive(c, s), p)
  {
    ArriveStructure(c, s);
    assert s.pending == [s.pending[0]] + s.pending[1..];
    match LowestClear(s.bitmap, 0)
    case Some(k) => ArriveInFreeFramePages(c, s, k);
    case None => ArriveOverVictimOrder(c, s); ArriveOverVictimPages(c, s);
  }

  lemma AwaitedStays(c: Config, s: Memory, e: Event, t: Memory, pid: Pid, p: PageId)
    requires Structure(c, s) && Next(c, s, e, t) && NotOf(pid, e) && VictimResident(s, e)
    requires p.pid == pid && AwaitedOrThere(s, p) && !TakesOut(s, e, p)
    ensures AwaitedOrThere(t, p)
  {
    match e
    case Created(other, count, fileFound) => CreateWellFormed(c, s, other, count, fileFound);
    case PageArrived => AwaitedArrives(c, s, p);
    case Finished(other) => FinishWellFormed(c, s, other);
    case _ =>
  }

  ghost predicate OnlyOthersSparing(steps: seq<Step>, states: seq<Machine>, i: nat, j: nat, p: PageId)
    requires i <= j <= |steps| <= |states|
  {
    forall k {:trigger steps[k]} :: i < k < j ==>
      !steps[k].Own? && (steps[k].Other? ==> !TakesOut(states[k].memory, steps[k].event, p))
  }

  lemma FaultAwaits(c: Config, pid: Pid, program: seq<Instruction>, m: Machine, t: Machine)
    requires c.pageSize > 0 && WellFormed(c, m.memory) && StepNext(c, pid, program, m, Own, t) &&
      WillFault(c, pid, program, m)
    ensures t.pc == m.pc && AwaitedOrThere(t.memory, NextPage(c, pid, program, m.pc))
  {
  }

  /** If the page is awaited or there before step k, it is after it too, and the process stays where it is. */
  ghost predicate Carries(states: seq<Machine>, k: nat, p: PageId)
    requires k + 1 < |states|
  {
    AwaitedOrThere(states[k].memory, p) ==>
      states[k + 1].pc == states[k].pc && AwaitedOrThere(states[k + 1].memory, p)
  }

  lemma {:induction false} AwaitedSince(states: seq<Machine>, i: nat, j: nat, p: PageId)
    requires i < j < |states| && AwaitedOrThere(states[i + 1].memory, p)
    requires forall k :: i < k < j ==> Carries(states, k, p)
    ensures states[j].pc == states[i + 1].pc && AwaitedOrThere(states[j].memory, p)
  {
    if j > i + 1 {
      AwaitedSince(states, i, j - 1, p);
      assert Carries(states, j - 1, p);
    }
  }

  lemma OtherSpares(c: Config, pid: Pid, program: seq<Instruction>, size: nat, m: Machine, step: Step, t: Machine,
                    flat: Flat, p: PageId)
    requires Sound(c, pid, size, m.memory, flat) && step.Other?
    requires StepNext(c, pid, program, m, step, t) && Spared(c, m, step)
    requires p.pid == pid && AwaitedOrThere(m.memory, p) && !TakesOut(m.memory, step.event, p)
    ensures t.pc == m.pc && AwaitedOrThere(t.memory, p)
  {
    VictimFound(c, m.memory, step.event);
    AwaitedStays(c, m.memory, step.event, t.memory, pid, p);
  }

  lemma CarriedOver(c: Config, pid: Pid, program: seq<Instruction>, size: nat, steps: seq<Step>, states: seq<Machine>,
                    flat: Flat, k: nat, p: PageId)
    requires c.pageSize > 0 && IsSharedRun(c, pid, program, steps, states) && k < |steps| && p.pid == pid
    requires Sound(c, pid, size, states[k].memory, flat)
    requires !steps[k].Own? && (steps[k].Other? ==> !TakesOut(states[k].memory, steps[k].event, p))
    ensures Carries(states, k, p)
  {
    var step := steps[k];
    if step.Other? && AwaitedOrThere(states[k].memory, p) {
      OtherSpares(c, pid, program, size, states[k], step, states[k + 1], flat, p);
    }
  }

  /** An instruction that is tried again after a fault faults again only if the page it came back for was taken out in
      between, whatever happened to the registers. */
  lemma RetryFaultsOnlyWhenTakenOut(c: Config, pid: Pid, program: seq<Instruction>, size: nat, steps: seq<Step>,
                                    states: seq<Machine>, flat: Flat, i: nat, j: nat)
    requires c.pageSize > 0 && IsSharedRun(c, pid, program, steps, states) && i < j < |steps|
    requires StaysInRange(c, program, size, steps, states, j) && Sound(c, pid, size, states[0].memory, flat)
    requires steps[i].Own? && WillFault(c, pid, program, states[i]) && steps[j].Own?
    requires OnlyOthersSparing(steps, states, i, j, NextPage(c, pid, program, states[i].pc))
    ensures states[j].pc == states[i].pc && !WillFault(c, pid, program, states[j])
  {
    var p := NextPage(c, pid, program, states[i].pc);
    forall k | i < k < j ensures Carries(states, k, p) {
      var after := MemoryStaysSound(c, pid, program, size, steps, states, flat, k);
      assert !steps[k].Own?;
      CarriedOver(c, pid, program, size, steps, states, after, k, p);
    }
    FaultAwaits(c, pid, program, states[i], states[i + 1]);
    AwaitedSince(states, i, j, p);
    BackAgain(c, pid, program, states[j], states[j + 1], p);
  }

  lemma BackAgain(c: Config, pid: Pid, program: seq<Instruction>, m: Machine, t: Machine, p: PageId)
    requires c.pageSize > 0 && WellFormed(c, m.memory) && StepNext(c, pid, program, m, Own, t)
    requires MemoryNext(program, m.pc) && p == NextPage(c, pid, program, m.pc) && AwaitedOrThere(m.memory, p)
    ensures !WillFault(c, pid, program, m)
  {
    assert p.pid == pid;
  }
}
