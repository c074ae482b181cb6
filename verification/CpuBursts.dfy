/** What one turn of the CPU does to the four registers and the program counter, why it gives a process back, and where
    the turns between two messages of the kernel stop. */
module CpuBursts {
  import opened Bytes
  import opened Paging
  import opened Cpu

  // ----- registers

  /** The registers by name. */
  function Fields(r: Registers): (m: map<Register, Word>)
    ensures forall x: Register :: x in m
  {
    var m := map[AX := r.ax, BX := r.bx, CX := r.cx, DX := r.dx];
    assert forall x: Register :: x in m by {
      forall x: Register ensures x in m {
        assert x.AX? || x.BX? || x.CX? || x.DX?;
      }
    }
    m
  }

  lemma GetReads(r: Registers, x: Register)
    ensures r.Get(x) == Fields(r)[x]
  {
  }

  lemma PutWrites(r: Registers, x: Register, w: Word)
    ensures Fields(r.Put(x, w)) == Fields(r)[x := w]
  {
  }

  /** A write to one register is read back there and in no other. */
  lemma PutThenGet(r: Registers, x: Register, y: Register, w: Word)
    ensures r.Put(x, w).Get(y) == if x == y then w else r.Get(y)
  {
    PutWrites(r, x, w);
  }

  // ----- instructions

  const MODULUS: int := 0x1_0000_0000

  /** The word is the number modulo 2^32, for numbers up to one modulus away. */
  predicate IsModulo(w: Word, v: int) {
    w == v || w == v + MODULUS || w == v - MODULUS
  }

  /** Only register x changes, and it gets the number. */
  predicate Gets(r: map<Register, Word>, x: Register, v: int, s: map<Register, Word>) {
    x in s && s == r[x := s[x]] && IsModulo(s[x], v)
  }

  /** What an instruction does: from registers r and program counter pc to s and next; loaded is the word that the
      memory has at the address of a MOV_IN. */
  predicate Effect(i: Instruction, loaded: int, r: map<Register, Word>, pc: Word, s: map<Register, Word>, next: Word)
    requires forall x: Register :: x in r
  {
    match i
    case Set(dst, value) => Gets(r, dst, value, s) && next == pc + 1
    case Sum(dst, src) => Gets(r, dst, r[dst] as int + r[src], s) && next == pc + 1
    case Sub(dst, src) => Gets(r, dst, r[dst] as int - r[src], s) && next == pc + 1
    case Jnz(test, target) => s == r && if r[test] != 0 then IsModulo(next, target) else next == pc + 1
    case MovInOp(dst, _) => Gets(r, dst, loaded, s) && next == pc + 1
    case MovOutOp(_, _) | KernelCall | Unknown => s == r && next == pc + 1
    case ExitOp => s == r && next == pc
  }

  /** The number whose bytes these are, the least significant first. */
  function LittleEndian(bytes: seq<Byte>, a: nat): nat
    requires a + 4 <= |bytes|
  {
    var b0: int, b1: int, b2: int, b3: int := bytes[a], bytes[a + 1], bytes[a + 2], bytes[a + 3];
    b0 + 0x100 * b1 + 0x1_0000 * b2 + 0x100_0000 * b3
  }

  predicate Inside(bytes: seq<Byte>, a: int) {
    0 <= a && a + 4 <= |bytes|
  }

  lemma RegistersAfter(r: Registers, s: Registers, x: Register, w: Word, v: int)
    requires s == r.Put(x, w) && IsModulo(w, v)
    ensures Gets(Fields(r), x, v, Fields(s))
  {
    PutWrites(r, x, w);
  }

  lemma WrapIsModulo(v: int)
    requires -MODULUS < v < 2 * MODULUS
    ensures IsModulo(Wrap(v), v)
  {
  }

  /** There is no instruction at the program counter, which is read as an int. */
  predicate Outside(program: seq<Instruction>, pc: Word) {
    pc >= |program| || pc >= 0x8000_0000
  }

  ghost predicate FlatHasEffect(program: seq<Instruction>, f: FlatMachine, loaded: int)
    requires Fetchable(program, f.pc)
  {
    var g := FlatCycle(program, f);
    Effect(program[ToInt(f.pc)], loaded, Fields(f.regs), f.pc, Fields(g.regs), g.pc)
  }

  lemma SetEffect(program: seq<Instruction>, f: FlatMachine)
    requires Fetchable(program, f.pc) && program[ToInt(f.pc)].Set?
    ensures FlatHasEffect(program, f, 0)
  {
    var i := program[ToInt(f.pc)];
    RegistersAfter(f.regs, FlatCycle(program, f).regs, i.dst, ToWord(i.value), i.value);
  }

  lemma SumEffect(program: seq<Instruction>, f: FlatMachine)
    requires Fetchable(program, f.pc) && program[ToInt(f.pc)].Sum?
    ensures FlatHasEffect(program, f, 0)
  {
    var i := program[ToInt(f.pc)];
    var v: int := f.regs.Get(i.dst) + f.regs.Get(i.src);
    WrapIsModulo(v);
    GetReads(f.regs, i.dst);
    GetReads(f.regs, i.src);
    RegistersAfter(f.regs, FlatCycle(program, f).regs, i.dst, Wrap(v), v);
  }

  lemma SubEffect(program: seq<Instruction>, f: FlatMachine)
    requires Fetchable(program, f.pc) && program[ToInt(f.pc)].Sub?
    ensures FlatHasEffect(program, f, 0)
  {
    var i := program[ToInt(f.pc)];
    var v: int := f.regs.Get(i.dst) - f.regs.Get(i.src);
    WrapIsModulo(v);
    GetReads(f.regs, i.dst);
    GetReads(f.regs, i.src);
    RegistersAfter(f.regs, FlatCycle(program, f).regs, i.dst, Wrap(v), v);
  }

  lemma JnzEffect(program: seq<Instruction>, f: FlatMachine)
    requires Fetchable(program, f.pc) && program[ToInt(f.pc)].Jnz?
    ensures FlatHasEffect(program, f, 0)
  {
    GetReads(f.regs, program[ToInt(f.pc)].test);
  }

  lemma MovInEffect(program: seq<Instruction>, f: FlatMachine)
    requires Fetchable(program, f.pc) && program[ToInt(f.pc)].MovInOp?
    requires Inside(f.bytes, program[ToInt(f.pc)].address)
    ensures FlatHasEffect(program, f, LittleEndian(f.bytes, program[ToInt(f.pc)].address))
  {
    var i := program[ToInt(f.pc)];
    var w := WordOf(f.bytes[i.address..i.address + 4]);
    RegistersAfter(f.regs, FlatCycle(program, f).regs, i.dst, w, w);
  }

  /** The flat interpreter does just that... */
  lemma FlatEffect(program: seq<Instruction>, f: FlatMachine)
    requires !Outside(program, f.pc)
    requires var i := program[f.pc]; i.MovInOp? || i.MovOutOp? ==> Inside(f.bytes, i.address)
    ensures var i, g := program[f.pc], FlatCycle(program, f);
      Effect(i, if i.MovInOp? then LittleEndian(f.bytes, i.address) else 0, Fields(f.regs), f.pc, Fields(g.regs), g.pc)
  {
    match program[ToInt(f.pc)]
    case Set(_, _) => SetEffect(program, f);
    case Sum(_, _) => SumEffect(program, f);
    case Sub(_, _) => SubEffect(program, f);
    case Jnz(_, _) => JnzEffect(program, f);
    case MovInOp(_, _) => MovInEffect(program, f);
    case MovOutOp(_, _) | KernelCall | ExitOp | Unknown =>
  }

  /** ...and changes memory by a MOV_OUT only: the four bytes at the address become those of the register. */
  lemma FlatStore(program: seq<Instruction>, f: FlatMachine)
    requires !Outside(program, f.pc)
    ensures var i, g := program[f.pc], FlatCycle(program, f);
      if i.MovOutOp? && Inside(f.bytes, i.address) then
        && |g.bytes| == |f.bytes| && LittleEndian(g.bytes, i.address) == Fields(f.regs)[i.src]
        && (forall k :: 0 <= k < |f.bytes| && !(i.address <= k < i.address + 4) ==> g.bytes[k] == f.bytes[k])
      else g.bytes == f.bytes
  {
    var i := program[ToInt(f.pc)];
    if i.MovOutOp? && Inside(f.bytes, i.address) {
      var w := f.regs.Get(i.src);
      WordRoundTrip(w);
      SpliceElements(f.bytes, i.address, WordBytes(w));
    }
  }

  // ----- a turn

  /** The access of the next instruction falls inside the user space of the memory process. */
  predicate AccessDefined(c: Config, pid: Pid, program: seq<Instruction>, m: Machine) {
    c.pageSize > 0 &&
    (MemoryNext(program, m.pc) ==>
      var p, a := PageOf(c, pid, program[ToInt(m.pc)].address), program[ToInt(m.pc)].address;
      Resident(m.memory, p) ==> Addressable(c, m.memory, p, Displacement(c, a), 4))
  }

  /** The page that the next turn asks for in vain: that of its address, or the one left in the PCB by an earlier fault,
      which only an instruction with an address takes out. */
  function Missing(c: Config, pid: Pid, program: seq<Instruction>, m: Machine): Option<PageId>
    requires c.pageSize > 0 && !Outside(program, m.pc)
  {
    var i := program[m.pc];
    if i.MovInOp? || i.MovOutOp? then
      if Resident(m.memory, PageOf(c, pid, i.address)) then None else Some(PageOf(c, pid, i.address))
    else if m.faulted.Some? then Some(PageId(pid, m.faulted.value)) else None
  }

  /** Why the turn ends: there is nothing to fetch, its page is missing, its instruction calls the kernel or is EXIT;
      and otherwise the process goes on. */
  function Cause(c: Config, pid: Pid, program: seq<Instruction>, m: Machine): Reason
    requires c.pageSize > 0
  {
    if Outside(program, m.pc) then FetchFailed
    else if Missing(c, pid, program, m).Some? then PageFault(Missing(c, pid, program, m).value)
    else if program[m.pc] == KernelCall then Call
    else if program[m.pc] == ExitOp then Finish
    else Continue
  }

  lemma TurnEndsBecause(c: Config, pid: Pid, program: seq<Instruction>, m: Machine)
    requires AccessDefined(c, pid, program, m)
    ensures CpuCycle(c, pid, program, m).1 == Cause(c, pid, program, m)
  {
  }

  lemma LoadedWord(c: Config, s: Memory, p: PageId, d: int)
    requires p in s.pages && Addressable(c, s, p, d, 4)
    ensures WordAt(c, s, p, d) == LittleEndian(s.frames, Base(c, s.pages[p].frame) + d)
  {
  }

  /** The word in the frame at the address of the next instruction. */
  function InFrame(c: Config, pid: Pid, program: seq<Instruction>, m: Machine): int
    requires AccessDefined(c, pid, program, m)
  {
    if MemoryNext(program, m.pc) && Resident(m.memory, PageOf(c, pid, program[ToInt(m.pc)].address)) then
      var a := program[ToInt(m.pc)].address;
      LittleEndian(m.memory.frames, Base(c, m.memory.pages[PageOf(c, pid, a)].frame) + Displacement(c, a))
    else 0
  }

  lemma LoadEffect(c: Config, pid: Pid, program: seq<Instruction>, m: Machine)
    requires AccessDefined(c, pid, program, m) && MemoryNext(program, m.pc) && program[ToInt(m.pc)].MovInOp?
    requires Resident(m.memory, PageOf(c, pid, program[ToInt(m.pc)].address))
    ensures var i, t := program[ToInt(m.pc)], CpuCycle(c, pid, program, m).0;
      Effect(i, InFrame(c, pid, program, m), Fields(m.regs), m.pc, Fields(t.regs), t.pc)
  {
    var i, t := program[ToInt(m.pc)], CpuCycle(c, pid, program, m).0;
    LoadedWord(c, m.memory, PageOf(c, pid, i.address), Displacement(c, i.address));
    var w := WordAt(c, m.memory, PageOf(c, pid, i.address), Displacement(c, i.address));
    RegistersAfter(m.regs, t.regs, i.dst, w, w);
  }

  lemma PlainEffect(c: Config, pid: Pid, program: seq<Instruction>, m: Machine)
    requires AccessDefined(c, pid, program, m) && !Outside(program, m.pc) && Missing(c, pid, program, m).None?
    requires !program[m.pc].MovInOp?
    ensures var i, t := program[m.pc], CpuCycle(c, pid, program, m).0;
      Effect(i, 0, Fields(m.regs), m.pc, Fields(t.regs), t.pc)
  {
    if !MemoryNext(program, m.pc) {
      var f := FlatMachine(m.regs, m.pc, []);
      PlainCycle(c, pid, program, m, f);
      FlatEffect(program, f);
    }
  }

  /** A turn of the CPU ends for that cause; it changes registers and program counter as its instruction says, or not at
      all if there is nothing to fetch or a page is missing. */
  lemma TurnDoes(c: Config, pid: Pid, program: seq<Instruction>, m: Machine)
    requires AccessDefined(c, pid, program, m)
    ensures CpuCycle(c, pid, program, m).1 == Cause(c, pid, program, m)
    ensures var t := CpuCycle(c, pid, program, m).0;
      if Outside(program, m.pc) || Missing(c, pid, program, m).Some? then
        t.regs == m.regs && t.pc == m.pc && t.memory == m.memory
      else
        && Effect(program[m.pc], InFrame(c, pid, program, m), Fields(m.regs), m.pc, Fields(t.regs), t.pc)
        && (!program[m.pc].MovInOp? && !program[m.pc].MovOutOp? ==> t.memory == m.memory)
  {
    if !Outside(program, m.pc) && Missing(c, pid, program, m).None? {
      if program[m.pc].MovInOp? {
        LoadEffect(c, pid, program, m);
      } else {
        PlainEffect(c, pid, program, m);
      }
    }
  }

  // ----- the turns between two messages

  predicate Defined(c: Config, pid: Pid, program: seq<Instruction>, m: Machine, n: nat)
    decreases n
  {
    AccessDefined(c, pid, program, m) &&
    (n > 0 && CpuCycle(c, pid, program, m).1 == Continue ==>
      Defined(c, pid, program, CpuCycle(c, pid, program, m).0, n - 1))
  }

  /** Cycles until one does not continue, or until the interrupt that is found after n more of them. */
  function Burst(c: Config, pid: Pid, program: seq<Instruction>, m: Machine, n: nat): (Machine, Reason)
    requires Defined(c, pid, program, m, n)
    decreases n
  {
    var (t, reason) := CpuCycle(c, pid, program, m);
    if n > 0 && reason == Continue then Burst(c, pid, program, t, n - 1) else (t, reason)
  }

  /** One turn after the other from m, each but the last with a cause to go on. */
  ghost predicate IsBurst(c: Config, pid: Pid, program: seq<Instruction>, m: Machine, ms: seq<Machine>) {
    && ms != [] && ms[0] == m
    && (forall k :: 0 <= k < |ms| ==> AccessDefined(c, pid, program, ms[k]))
    && (forall k :: 0 <= k < |ms| - 1 ==>
          Cause(c, pid, program, ms[k]) == Continue && ms[k + 1] == CpuCycle(c, pid, program, ms[k]).0)
  }

  /** A burst stops with the first turn that has a cause to, or with the interrupt found after n turns that went on; its
      reason is that cause, and nothing behind that turn is executed. */
  lemma {:induction false} BurstStops(c: Config, pid: Pid, program: seq<Instruction>, m: Machine, n: nat)
    returns (ms: seq<Machine>)
    requires Defined(c, pid, program, m, n)
    ensures IsBurst(c, pid, program, m, ms) && |ms| <= n + 1
    ensures var last := ms[|ms| - 1];
      && Burst(c, pid, program, m, n) == (CpuCycle(c, pid, program, last).0, Cause(c, pid, program, last))
      && (Cause(c, pid, program, last) == Continue ==> |ms| == n + 1)
    decreases n
  {
    TurnEndsBecause(c, pid, program, m);
    var t := CpuCycle(c, pid, program, m).0;
    if n > 0 && Cause(c, pid, program, m) == Continue {
      var rest := BurstStops(c, pid, program, t, n - 1);
      ms := [m] + rest;
    } else {
      ms := [m];
    }
  }

  /** A burst that gives back a call has executed it, and stands just behind it. */
  lemma CallStandsBehind(c: Config, pid: Pid, program: seq<Instruction>, m: Machine, n: nat) returns (pc: Word)
    requires Defined(c, pid, program, m, n) && Burst(c, pid, program, m, n).1 == Call
    ensures !Outside(program, pc) && program[pc] == KernelCall && Burst(c, pid, program, m, n).0.pc == pc + 1
  {
    var ms := BurstStops(c, pid, program, m, n);
    pc := ms[|ms| - 1].pc;
    TurnDoes(c, pid, program, ms[|ms| - 1]);
  }
}
