/** The CPU process: registers and program counter updated in place by its dispatch loop. */
module CpuProcess {
  import opened Bytes
  import opened Paging
  import opened Cpu
  import opened CpuBursts

  class Processor {
    const c: Config
    var regs: Registers
    var pc: Word
    var faulted: Option<int>
    var memory: Memory

    constructor (c: Config, regs: Registers, pc: Word, memory: Memory)
      ensures this.c == c && Abs() == Machine(regs, pc, memory, None)
    {
      this.c, this.regs, this.pc, this.memory, this.faulted := c, regs, pc, memory, None;
    }

    function Abs(): Machine
      reads this
    {
      Machine(regs, pc, memory, faulted)
    }

    /** mmu_translate: the page, the displacement, and whether the memory answered with a page fault. */
    method Translate(pid: Pid, address: Int32) returns (p: PageId, displacement: int, fault: bool)
      requires c.pageSize > 0
      ensures p == PageOf(c, pid, address) && displacement == Displacement(c, address) && fault == !Resident(memory, p)
    {
      var number := TruncatedDivision(address, c.pageSize);
      p := PageId(pid, number);
      displacement := address - number * c.pageSize;
      fault := p !in memory.pages || !memory.pages[p].present;
    }

    /** decode: after it the PCB carries PAGE_FAULT or not. */
    method Decode(pid: Pid, i: Instruction)
      requires c.pageSize > 0
      modifies this`faulted
      ensures faulted == if !TouchesMemory(i) then old(faulted)
                         else if Resident(memory, PageOf(c, pid, i.address)) then None
                         else Some(PageOf(c, pid, i.address).number)
    {
      if TouchesMemory(i) {
        var p, displacement, fault := Translate(pid, i.address);
        faulted := if fault then Some(p.number) else None;
      }
    }

    /** execute, and the increment of the program counter that follows it. */
    method Execute(pid: Pid, program: seq<Instruction>, i: Instruction) returns (reason: Reason)
      requires Fetchable(program, pc) && i == program[ToInt(pc)] && AccessDefined(c, pid, program, Abs())
      requires faulted == None && (TouchesMemory(i) ==> Resident(memory, PageOf(c, pid, i.address)))
      modifies this`regs, this`pc, this`memory
      ensures (Abs(), reason) == old(CpuCycle(c, pid, program, Abs()))
    {
      reason := Continue;
      var increment := true;
      match i {
        case Set(dst, value) => regs := regs.Put(dst, ToWord(value));
        case Sum(dst, src) => regs := regs.Put(dst, Wrap(regs.Get(dst) + regs.Get(src)));
        case Sub(dst, src) => regs := regs.Put(dst, Wrap(regs.Get(dst) - regs.Get(src)));
        case Jnz(test, target) =>
          if regs.Get(test) != 0 {
            pc := ToWord(target);
            increment := false;
          }
        case MovInOp(dst, a) =>
          regs := regs.Put(dst, WordAt(c, memory, PageOf(c, pid, a), Displacement(c, a)));
          memory := MovIn(c, memory, pid, a);
        case MovOutOp(a, src) =>
          memory := MovOut(c, memory, pid, a, regs.Get(src));
        case KernelCall => reason := Call;
        case ExitOp =>
          reason := Finish;
          increment := false;
        case Unknown =>
      }
      if increment {
        pc := Wrap(pc + 1);
      }
    }

    /** wait_for_dispatch_command on INSTRUCTION: fetch, decode and execute until the context goes back to the kernel;
        an interrupt is found after n instructions that would have continued. */
    method Dispatch(pid: Pid, program: seq<Instruction>, n: nat) returns (reason: Reason)
      requires Defined(c, pid, program, Abs(), n)
      modifies this`regs, this`pc, this`memory, this`faulted
      ensures (Abs(), reason) == old(Burst(c, pid, program, Abs(), n))
    {
      var left: nat := n;
      while true
        invariant left <= n && Defined(c, pid, program, Abs(), left)
        invariant Burst(c, pid, program, Abs(), left) == old(Burst(c, pid, program, Abs(), n))
        decreases left
      {
        if !Fetchable(program, pc) {
          return FetchFailed;
        }
        var i := program[ToInt(pc)];
        Decode(pid, i);
        if faulted.Some? {
          return PageFault(PageId(pid, faulted.value));
        }
        reason := Execute(pid, program, i);
        if reason != Continue || left == 0 {
          return;
        }
        left := left - 1;
      }
    }
  }
}
