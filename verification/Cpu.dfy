/** The CPU's fetch, decode and execute cycle over paged memory, and an interpreter over flat memory that it
    simulates. */
module Cpu {
  import opened Bytes
  import opened Paging
  import opened PagingStructure
  import opened PagingInvariant
  import opened PagingRuns
  import opened Stuttering

  datatype Register = AX | BX | CX | DX

  datatype Registers = Registers(ax: Word, bx: Word, cx: Word, dx: Word) {
    function Get(r: Register): Word {
      match r
      case AX => ax
      case BX => bx
      case CX => cx
      case DX => dx
    }

    function Put(r: Register, w: Word): Registers {
      match r
      case AX => this.(ax := w)
      case BX => this.(bx := w)
      case CX => this.(cx := w)
      case DX => this.(dx := w)
    }
  }

  /** Numbers are what atoi made of the operands. KernelCall stands for SLEEP, WAIT and SIGNAL. */
  datatype Instruction =
    | Set(dst: Register, value: Int32)
    | Sum(dst: Register, src: Register)
    | Sub(dst: Register, src: Register)
    | Jnz(test: Register, target: Int32)
    | MovInOp(dst: Register, address: Int32)
    | MovOutOp(address: Int32, src: Register)
    | KernelCall
    | ExitOp
    | Unknown

  /** faulted: the page number in the PCB while it carries PAGE_FAULT as its instruction. */
  datatype Machine = Machine(regs: Registers, pc: Word, memory: Memory, faulted: Option<int>)

  datatype Reason = Continue | PageFault(page: PageId) | Finish | Call | FetchFailed

  function Wrap(i: int): Word {
    i % 0x1_0000_0000
  }

  /** The program counter travels as an int; outside the program there is no instruction to fetch. */
  predicate Fetchable(program: seq<Instruction>, pc: Word) {
    0 <= ToInt(pc) < |program|
  }

  predicate TouchesMemory(i: Instruction) {
    i.MovInOp? || i.MovOutOp?
  }

  /** One turn of the CPU's loop: fetch, decode with its translation, then execute. */
  function CpuCycle(c: Config, pid: Pid, program: seq<Instruction>, m: Machine): (r: (Machine, Reason))
    requires c.pageSize > 0
    requires Fetchable(program, m.pc) && TouchesMemory(program[ToInt(m.pc)]) ==>
      var p, a := PageOf(c, pid, program[ToInt(m.pc)].address), program[ToInt(m.pc)].address;
      Resident(m.memory, p) ==> Addressable(c, m.memory, p, Displacement(c, a), 4)
  {
    if !Fetchable(program, m.pc) then (m, FetchFailed)
    else
      var i := program[ToInt(m.pc)];
      var next := Wrap(m.pc + 1);
      if TouchesMemory(i) && !Resident(m.memory, PageOf(c, pid, i.address)) then
        (m.(faulted := Some(PageOf(c, pid, i.address).number)), PageFault(PageOf(c, pid, i.address)))
      else if !TouchesMemory(i) && m.faulted.Some? then
        (m, PageFault(PageId(pid, m.faulted.value)))
      else
        match i
        case Set(dst, value) => (m.(regs := m.regs.Put(dst, ToWord(value)), pc := next), Continue)
        case Sum(dst, src) =>
          (m.(regs := m.regs.Put(dst, Wrap(m.regs.Get(dst) + m.regs.Get(src))), pc := next), Continue)
        case Sub(dst, src) =>
          (m.(regs := m.regs.Put(dst, Wrap(m.regs.Get(dst) - m.regs.Get(src))), pc := next), Continue)
        case Jnz(test, target) => (m.(pc := if m.regs.Get(test) != 0 then ToWord(target) else next), Continue)
        case MovInOp(dst, a) =>
          var w := WordAt(c, m.memory, PageOf(c, pid, a), Displacement(c, a));
          (m.(regs := m.regs.Put(dst, w), pc := next, memory := MovIn(c, m.memory, pid, a), faulted := None), Continue)
        case MovOutOp(a, src) =>
          (m.(pc := next, memory := MovOut(c, m.memory, pid, a, m.regs.Get(src)), faulted := None), Continue)
        case KernelCall => (m.(pc := next), Call)
        case ExitOp => (m, Finish)
        case Unknown => (m.(pc := next), Continue)
  }

  // ----- the flat interpreter

  datatype FlatMachine = FlatMachine(regs: Registers, pc: Word, bytes: seq<Byte>)

  function FlatCycle(program: seq<Instruction>, f: FlatMachine): FlatMachine {
    if !Fetchable(program, f.pc) then f
    else
      var next := Wrap(f.pc + 1);
      match program[ToInt(f.pc)]
      case Set(dst, value) => f.(regs := f.regs.Put(dst, ToWord(value)), pc := next)
      case Sum(dst, src) => f.(regs := f.regs.Put(dst, Wrap(f.regs.Get(dst) + f.regs.Get(src))), pc := next)
      case Sub(dst, src) => f.(regs := f.regs.Put(dst, Wrap(f.regs.Get(dst) - f.regs.Get(src))), pc := next)
      case Jnz(test, target) => f.(pc := if f.regs.Get(test) != 0 then ToWord(target) else next)
      case MovInOp(dst, a) =>
        if 0 <= a && a + 4 <= |f.bytes| then f.(regs := f.regs.Put(dst, WordOf(f.bytes[a..a + 4])), pc := next) else f
      case MovOutOp(a, src) =>
        if 0 <= a && a + 4 <= |f.bytes|
        then f.(bytes := Splice(f.bytes, a, WordBytes(f.regs.Get(src))), pc := next)
        else f
      case KernelCall => f.(pc := next)
      case ExitOp => f
      case Unknown => f.(pc := next)
  }

  /** The next instruction addresses, if anything, a word inside one page of the process. */
  predicate InRange(c: Config, program: seq<Instruction>, size: nat, pc: Word)
    requires c.pageSize > 0
  {
    Fetchable(program, pc) && TouchesMemory(program[ToInt(pc)]) ==>
      WordInPage(c, program[ToInt(pc)].address) && PageOf(c, 0, program[ToInt(pc)].address).number < size
  }

  // ----- the system: a returned fault is served by the kernel and the memory, and the PCB is sent again

  ghost function Served(c: Config, s: Memory, p: PageId): Memory
    requires Inv(c, s) && p in s.pages && !s.pages[p].present && s.pending == []
  {
    ServedRequest(c, s, p);
    var s1 := RequestLoad(c, s, p);
    ServedAnswer(c, s1, p);
    Arrive(c, AnswerSwap(c, s1))
  }

  lemma ServedRequest(c: Config, s: Memory, p: PageId)
    requires Inv(c, s) && p in s.pages && !s.pages[p].present && s.pending == []
    ensures var t := RequestLoad(c, s, p);
      && Inv(c, t) && SameViews(c, s, t) && t.pending == [p] && t.requests != [] && p in t.pages
      && (LowestClear(t.bitmap, 0).None? ==> HeadResident(t))
  {
    RequestLoadKeeps(c, s, p);
    if LowestClear(s.bitmap, 0).None? {
      var q := FullMeansListed(c, s);
      assert s.order[0] in s.order;
    }
  }

  lemma ServedAnswer(c: Config, s: Memory, p: PageId)
    requires Inv(c, s) && s.pending == [p] && s.requests != []
    ensures var t := AnswerSwap(c, s);
      && Inv(c, t) && SameViews(c, s, t) && t.pending == [p] && t.replies != []
      && t.bitmap == s.bitmap && t.order == s.order && t.pages == s.pages
  {
    AnswerSwapKeeps(c, s);
  }

  lemma ServedArrival(c: Config, s: Memory, p: PageId)
    requires Inv(c, s) && s.pending == [p] && s.replies != [] && (LowestClear(s.bitmap, 0).None? ==> HeadResident(s))
    ensures var t := Arrive(c, s); Inv(c, t) && SameViews(c, s, t) && t.pending == [] && Resident(t, p)
  {
    ArriveKeeps(c, s);
  }

  lemma SameViewsChain(c: Config, s: Memory, t: Memory, u: Memory)
    requires WellFormed(c, s) && WellFormed(c, t) && WellFormed(c, u) && SameViews(c, s, t) && SameViews(c, t, u)
    ensures SameViews(c, s, u)
  {
  }

  lemma ServedKeeps(c: Config, s: Memory, p: PageId)
    requires Inv(c, s) && p in s.pages && !s.pages[p].present && s.pending == []
    ensures Inv(c, Served(c, s, p)) && SameViews(c, s, Served(c, s, p))
    ensures Served(c, s, p).pending == [] && Resident(Served(c, s, p), p)
  {
    ServedRequest(c, s, p);
    var s1 := RequestLoad(c, s, p);
    ServedAnswer(c, s1, p);
    var s2 := AnswerSwap(c, s1);
    ServedArrival(c, s2, p);
    SameViewsChain(c, s, s1, s2);
    SameViewsChain(c, s, s2, Arrive(c, s2));
  }

  // ----- the memory under a running process

  /** Nothing is in flight, and paging shows the flat bytes of the process; others holds the flat memory of every
      other process. */
  ghost predicate Holds(c: Config, pid: Pid, others: Flat, s: Memory, bytes: seq<Byte>) {
    && Inv(c, s)
    && s.pending == []
    && pid in s.sizes
    && Refines(c, s, others[pid := bytes])
  }

  /** The address names a word inside one page of the process. */
  predicate InPage(c: Config, s: Memory, pid: Pid, address: int)
    requires c.pageSize > 0
  {
    pid in s.sizes && WordInPage(c, address) && PageOf(c, pid, address).number < s.sizes[pid]
  }

  lemma InPageExists(c: Config, s: Memory, pid: Pid, address: int)
    requires WellFormed(c, s) && InPage(c, s, pid, address)
    ensures PageOf(c, pid, address) in s.pages
    ensures Resident(s, PageOf(c, pid, address)) ==>
      Addressable(c, s, PageOf(c, pid, address), Displacement(c, address), 4)
  {
    SplitAddress(c, pid, address);
    if Resident(s, PageOf(c, pid, address)) {
      StoreFits(c, s, PageOf(c, pid, address), Displacement(c, address), 4);
    }
  }

  lemma ServedHolds(c: Config, pid: Pid, others: Flat, s: Memory, bytes: seq<Byte>, p: PageId)
    requires Holds(c, pid, others, s, bytes) && p in s.pages && !s.pages[p].present
    ensures Holds(c, pid, others, Served(c, s, p), bytes)
    ensures Served(c, s, p).sizes == s.sizes && Resident(Served(c, s, p), p)
  {
    ServedKeeps(c, s, p);
    SameViewsRefine(c, s, Served(c, s, p), others[pid := bytes]);
  }

  lemma MovInHolds(c: Config, pid: Pid, others: Flat, s: Memory, bytes: seq<Byte>, a: int)
    requires Holds(c, pid, others, s, bytes) && InPage(c, s, pid, a) && Resident(s, PageOf(c, pid, a))
    ensures Holds(c, pid, others, MovIn(c, s, pid, a), bytes) && MovIn(c, s, pid, a).sizes == s.sizes
    ensures Addressable(c, s, PageOf(c, pid, a), Displacement(c, a), 4) && 0 <= a && a + 4 <= |bytes|
    ensures WordAt(c, s, PageOf(c, pid, a), Displacement(c, a)) == WordOf(bytes[a..a + 4])
  {
    FlatWord(c, s, others[pid := bytes], pid, a);
    TouchKeeps(c, s, PageOf(c, pid, a));
    SameViewsRefine(c, s, MovIn(c, s, pid, a), others[pid := bytes]);
  }

  lemma SameSplice(s: seq<Byte>, t: seq<Byte>, i: nat, j: nat, w: seq<Byte>)
    requires s == t && i == j && i + |w| <= |s|
    ensures Splice(s, i, w) == Splice(t, j, w)
  {
  }

  lemma SameEntry(f: Flat, p: Pid, q: Pid, x: seq<Byte>, y: seq<Byte>)
    requires p == q && x == y
    ensures f[p := x] == f[q := y]
  {
  }

  lemma SameFlatRefines(c: Config, t: Memory, f: Flat, g: Flat)
    requires WellFormed(c, t) && Refines(c, t, f) && f == g
    ensures Refines(c, t, g)
  {
  }

  lemma RefinesAs(c: Config, t: Memory, pid: Pid, others: Flat, bytes: seq<Byte>, p: PageId, d: nat, a: nat,
                  w: seq<Byte>)
    requires WellFormed(c, t) && p.pid == pid && p.number >= 0 && a == Base(c, p.number) + d && a + |w| <= |bytes|
    requires var f := others[pid := bytes]; Refines(c, t, f[p.pid := Splice(f[p.pid], Base(c, p.number) + d, w)])
    ensures Refines(c, t, others[pid := bytes][pid := Splice(bytes, a, w)])
  {
    var f := others[pid := bytes];
    SameSplice(f[p.pid], bytes, Base(c, p.number) + d, a, w);
    SameEntry(f, p.pid, pid, Splice(f[p.pid], Base(c, p.number) + d, w), Splice(bytes, a, w));
    SameFlatRefines(c, t, f[p.pid := Splice(f[p.pid], Base(c, p.number) + d, w)], f[pid := Splice(bytes, a, w)]);
  }

  lemma StoreHolds(c: Config, pid: Pid, others: Flat, s: Memory, bytes: seq<Byte>, p: PageId, d: nat, a: nat,
                   w: seq<Byte>)
    requires Holds(c, pid, others, s, bytes) && Resident(s, p) && p.pid == pid && d + |w| <= c.pageSize
    requires a == Base(c, p.number) + d
    ensures Addressable(c, s, p, d, |w|) && a + |w| <= |bytes|
    ensures Inv(c, StoreBytes(c, s, p, d, w)) && StoreBytes(c, s, p, d, w).pending == []
    ensures StoreBytes(c, s, p, d, w).sizes == s.sizes
    ensures Refines(c, StoreBytes(c, s, p, d, w), others[pid := bytes][pid := Splice(bytes, a, w)])
  {
    var f := others[pid := bytes];
    StoreKeeps(c, s, p, d, w);
    StoreRefinesAt(c, s, f, p, d, w);
    RefinesAs(c, StoreBytes(c, s, p, d, w), pid, others, bytes, p, d, a, w);
  }

  lemma SameFlatHolds(c: Config, pid: Pid, others: Flat, t: Memory, bytes: seq<Byte>, f: Flat)
    requires Inv(c, t) && t.pending == [] && pid in t.sizes && Refines(c, t, f) && f == others[pid := bytes]
    ensures Holds(c, pid, others, t, bytes)
  {
  }

  lemma StoredHolds(c: Config, pid: Pid, others: Flat, t: Memory, bytes: seq<Byte>, a: int, w: seq<Byte>)
    requires 0 <= a && a + |w| <= |bytes| && Inv(c, t) && t.pending == [] && pid in t.sizes
    requires Refines(c, t, others[pid := bytes][pid := Splice(bytes, a, w)])
    ensures Holds(c, pid, others, t, Splice(bytes, a, w))
  {
    SameFlatHolds(c, pid, others, t, Splice(bytes, a, w), others[pid := bytes][pid := Splice(bytes, a, w)]);
  }

  lemma WriteHolds(c: Config, pid: Pid, others: Flat, s: Memory, bytes: seq<Byte>, p: PageId, d: nat, a: int,
                   w: seq<Byte>)
    requires Holds(c, pid, others, s, bytes) && Resident(s, p) && p.pid == pid && d + |w| <= c.pageSize
    requires a == Base(c, p.number) + d
    ensures Addressable(c, s, p, d, |w|) && a + |w| <= |bytes|
    ensures Holds(c, pid, others, StoreBytes(c, s, p, d, w), Splice(bytes, a, w))
  {
    StoreHolds(c, pid, others, s, bytes, p, d, a, w);
    StoredHolds(c, pid, others, StoreBytes(c, s, p, d, w), bytes, a, w);
  }

  lemma MovOutHolds(c: Config, pid: Pid, others: Flat, s: Memory, bytes: seq<Byte>, a: int, value: Word)
    requires Holds(c, pid, others, s, bytes) && InPage(c, s, pid, a) && Resident(s, PageOf(c, pid, a))
    ensures Addressable(c, s, PageOf(c, pid, a), Displacement(c, a), 4) && 0 <= a && a + 4 <= |bytes|
    ensures Holds(c, pid, others, MovOut(c, s, pid, a, value), Splice(bytes, a, WordBytes(value)))
    ensures MovOut(c, s, pid, a, value).sizes == s.sizes
  {
    SplitAddress(c, pid, a);
    WriteHolds(c, pid, others, s, bytes, PageOf(c, pid, a), Displacement(c, a), a, WordBytes(value));
    MovOutOfResident(c, s, pid, a, value);
  }

  // ----- turns

  predicate MemoryNext(program: seq<Instruction>, pc: Word) {
    Fetchable(program, pc) && TouchesMemory(program[ToInt(pc)])
  }

  /** The next turn ends in a page fault. */
  predicate WillFault(c: Config, pid: Pid, program: seq<Instruction>, m: Machine)
    requires c.pageSize > 0
  {
    MemoryNext(program, m.pc) && !Resident(m.memory, PageOf(c, pid, program[ToInt(m.pc)].address))
  }

  /** The system can take a turn: the next instruction stays inside a page of the process, and after a fault it is the
      one that faulted and its page is there. */
  ghost predicate Runnable(c: Config, pid: Pid, program: seq<Instruction>, m: Machine) {
    && Inv(c, m.memory) && m.memory.pending == []
    && (MemoryNext(program, m.pc) ==> InPage(c, m.memory, pid, program[ToInt(m.pc)].address))
    && (m.faulted.Some? ==> MemoryNext(program, m.pc) && !WillFault(c, pid, program, m))
  }

  lemma CycleDefined(c: Config, pid: Pid, program: seq<Instruction>, m: Machine)
    requires Runnable(c, pid, program, m)
    ensures MemoryNext(program, m.pc) ==>
      var p, a := PageOf(c, pid, program[ToInt(m.pc)].address), program[ToInt(m.pc)].address;
      p in m.memory.pages && (Resident(m.memory, p) ==> Addressable(c, m.memory, p, Displacement(c, a), 4))
  {
    if MemoryNext(program, m.pc) {
      InPageExists(c, m.memory, pid, program[ToInt(m.pc)].address);
    }
  }

  /** One turn of the CPU's loop, and when it ends in a fault the service of that fault. */
  ghost function Turn(c: Config, pid: Pid, program: seq<Instruction>, m: Machine): Machine {
    if !Runnable(c, pid, program, m) then m
    else
      CycleDefined(c, pid, program, m);
      var (t, reason) := CpuCycle(c, pid, program, m);
      if WillFault(c, pid, program, m) then t.(memory := Served(c, m.memory, reason.page)) else t
  }

  /** The two machines agree on registers, program counter and memory. */
  ghost predicate Simulates(c: Config, pid: Pid, program: seq<Instruction>, others: Flat, size: nat, m: Machine,
                            f: FlatMachine) {
    && Holds(c, pid, others, m.memory, f.bytes) && m.memory.sizes[pid] == size
    && m.regs == f.regs
    && m.pc == f.pc
    && (m.faulted.Some? ==> MemoryNext(program, m.pc) && !WillFault(c, pid, program, m))
  }

  lemma FaultTurn(c: Config, pid: Pid, program: seq<Instruction>, others: Flat, size: nat, m: Machine, f: FlatMachine)
    requires Simulates(c, pid, program, others, size, m, f) && InRange(c, program, size, m.pc)
    requires WillFault(c, pid, program, m)
    ensures Simulates(c, pid, program, others, size, Turn(c, pid, program, m), f)
    ensures !WillFault(c, pid, program, Turn(c, pid, program, m))
  {
    var a := program[ToInt(m.pc)].address;
    InPageExists(c, m.memory, pid, a);
    ServedHolds(c, pid, others, m.memory, f.bytes, PageOf(c, pid, a));
  }

  /** A turn that does not fault is what the cycle makes of the machine. */
  lemma TurnIsCycle(c: Config, pid: Pid, program: seq<Instruction>, m: Machine)
    requires Runnable(c, pid, program, m) && !WillFault(c, pid, program, m)
    ensures MemoryNext(program, m.pc) ==>
      var p, a := PageOf(c, pid, program[ToInt(m.pc)].address), program[ToInt(m.pc)].address;
      Resident(m.memory, p) && Addressable(c, m.memory, p, Displacement(c, a), 4)
    ensures Turn(c, pid, program, m) == CpuCycle(c, pid, program, m).0
  {
    CycleDefined(c, pid, program, m);
  }

  /** What the two machines agree on besides memory. */
  predicate Agree(m: Machine, f: FlatMachine) {
    m.regs == f.regs && m.pc == f.pc && m.faulted == None
  }

  lemma Simulating(c: Config, pid: Pid, program: seq<Instruction>, others: Flat, size: nat, m: Machine, f: FlatMachine,
                   s: Memory, bytes: seq<Byte>)
    requires Holds(c, pid, others, s, bytes) && s.sizes[pid] == size
    requires m.memory == s && f.bytes == bytes && Agree(m, f)
    ensures Simulates(c, pid, program, others, size, m, f)
  {
  }

  lemma SimulatedRunnable(c: Config, pid: Pid, program: seq<Instruction>, others: Flat, size: nat, m: Machine,
                          f: FlatMachine)
    requires Simulates(c, pid, program, others, size, m, f) && InRange(c, program, size, m.pc)
    ensures Runnable(c, pid, program, m)
  {
  }

  lemma MovInCycle(c: Config, pid: Pid, program: seq<Instruction>, m: Machine, f: FlatMachine, a: int)
    requires c.pageSize > 0 && MemoryNext(program, m.pc) && program[ToInt(m.pc)].MovInOp?
    requires a == program[ToInt(m.pc)].address && 0 <= a && a + 4 <= |f.bytes| && m.regs == f.regs && m.pc == f.pc
    requires Resident(m.memory, PageOf(c, pid, a)) && Addressable(c, m.memory, PageOf(c, pid, a), Displacement(c, a), 4)
    requires WordAt(c, m.memory, PageOf(c, pid, a), Displacement(c, a)) == WordOf(f.bytes[a..a + 4])
    ensures Agree(CpuCycle(c, pid, program, m).0, FlatCycle(program, f))
    ensures CpuCycle(c, pid, program, m).0.memory == MovIn(c, m.memory, pid, a) &&
      FlatCycle(program, f).bytes == f.bytes
  {
  }

  lemma MovInTurn(c: Config, pid: Pid, program: seq<Instruction>, others: Flat, size: nat, m: Machine, f: FlatMachine)
    requires Simulates(c, pid, program, others, size, m, f) && InRange(c, program, size, m.pc)
    requires MemoryNext(program, m.pc) && program[ToInt(m.pc)].MovInOp? && !WillFault(c, pid, program, m)
    ensures Simulates(c, pid, program, others, size, Turn(c, pid, program, m), FlatCycle(program, f))
  {
    var a := program[ToInt(m.pc)].address;
    SimulatedRunnable(c, pid, program, others, size, m, f);
    TurnIsCycle(c, pid, program, m);
    MovInHolds(c, pid, others, m.memory, f.bytes, a);
    MovInCycle(c, pid, program, m, f, a);
    Simulating(c, pid, program, others, size, Turn(c, pid, program, m), FlatCycle(program, f),
               MovIn(c, m.memory, pid, a), f.bytes);
  }

  lemma MovOutCycle(c: Config, pid: Pid, program: seq<Instruction>, m: Machine, f: FlatMachine, a: int, w: Word)
    requires c.pageSize > 0 && MemoryNext(program, m.pc) && program[ToInt(m.pc)].MovOutOp?
    requires a == program[ToInt(m.pc)].address && 0 <= a && a + 4 <= |f.bytes| && m.regs == f.regs && m.pc == f.pc
    requires w == m.regs.Get(program[ToInt(m.pc)].src)
    requires Resident(m.memory, PageOf(c, pid, a)) && Addressable(c, m.memory, PageOf(c, pid, a), Displacement(c, a), 4)
    ensures Agree(CpuCycle(c, pid, program, m).0, FlatCycle(program, f))
    ensures CpuCycle(c, pid, program, m).0.memory == MovOut(c, m.memory, pid, a, w)
    ensures FlatCycle(program, f).bytes == Splice(f.bytes, a, WordBytes(w))
  {
  }

  lemma MovOutTurn(c: Config, pid: Pid, program: seq<Instruction>, others: Flat, size: nat, m: Machine, f: FlatMachine)
    requires Simulates(c, pid, program, others, size, m, f) && InRange(c, program, size, m.pc)
    requires MemoryNext(program, m.pc) && program[ToInt(m.pc)].MovOutOp? && !WillFault(c, pid, program, m)
    ensures Simulates(c, pid, program, others, size, Turn(c, pid, program, m), FlatCycle(program, f))
  {
    var a, w := program[ToInt(m.pc)].address, m.regs.Get(program[ToInt(m.pc)].src);
    SimulatedRunnable(c, pid, program, others, size, m, f);
    TurnIsCycle(c, pid, program, m);
    MovOutHolds(c, pid, others, m.memory, f.bytes, a, w);
    MovOutCycle(c, pid, program, m, f, a, w);
    Simulating(c, pid, program, others, size, Turn(c, pid, program, m), FlatCycle(program, f),
               MovOut(c, m.memory, pid, a, w), Splice(f.bytes, a, WordBytes(w)));
  }

  lemma PlainCycle(c: Config, pid: Pid, program: seq<Instruction>, m: Machine, f: FlatMachine)
    requires c.pageSize > 0 && !MemoryNext(program, m.pc) && Agree(m, f)
    ensures Agree(CpuCycle(c, pid, program, m).0, FlatCycle(program, f))
    ensures CpuCycle(c, pid, program, m).0.memory == m.memory && FlatCycle(program, f).bytes == f.bytes
  {
  }

  /** An instruction that touches no memory is the same on both machines. */
  lemma PlainTurn(c: Config, pid: Pid, program: seq<Instruction>, others: Flat, size: nat, m: Machine, f: FlatMachine)
    requires Simulates(c, pid, program, others, size, m, f) && !MemoryNext(program, m.pc)
    ensures Simulates(c, pid, program, others, size, Turn(c, pid, program, m), FlatCycle(program, f))
  {
    TurnIsCycle(c, pid, program, m);
    PlainCycle(c, pid, program, m, f);
    Simulating(c, pid, program, others, size, Turn(c, pid, program, m), FlatCycle(program, f), m.memory, f.bytes);
  }

  /** A turn that is not a fault is one instruction of the flat interpreter. */
  lemma InstructionTurn(c: Config, pid: Pid, program: seq<Instruction>, others: Flat, size: nat, m: Machine,
                        f: FlatMachine)
    requires Simulates(c, pid, program, others, size, m, f) && InRange(c, program, size, m.pc)
    requires !WillFault(c, pid, program, m)
    ensures Simulates(c, pid, program, others, size, Turn(c, pid, program, m), FlatCycle(program, f))
  {
    if !MemoryNext(program, m.pc) {
      PlainTurn(c, pid, program, others, size, m, f);
    } else if program[ToInt(m.pc)].MovInOp? {
      MovInTurn(c, pid, program, others, size, m, f);
    } else {
      MovOutTurn(c, pid, program, others, size, m, f);
    }
  }

  // ----- whole programs

  ghost function TurnOf(c: Config, pid: Pid, program: seq<Instruction>): Machine -> Machine {
    (m: Machine) => Turn(c, pid, program, m)
  }

  ghost function FaultOf(c: Config, pid: Pid, program: seq<Instruction>): Machine -> bool
    requires c.pageSize > 0
  {
    (m: Machine) => WillFault(c, pid, program, m)
  }

  ghost function CycleOf(program: seq<Instruction>): FlatMachine -> FlatMachine {
    (f: FlatMachine) => FlatCycle(program, f)
  }

  ghost function InRangeOf(c: Config, program: seq<Instruction>, size: nat): FlatMachine -> bool
    requires c.pageSize > 0
  {
    (f: FlatMachine) => InRange(c, program, size, f.pc)
  }

  ghost function SimulatesOf(c: Config, pid: Pid, program: seq<Instruction>, others: Flat, size: nat)
    : (Machine, FlatMachine) -> bool
  {
    (m, f) => Simulates(c, pid, program, others, size, m, f)
  }

  ghost function Turns(c: Config, pid: Pid, program: seq<Instruction>, m: Machine, k: nat): Machine {
    Iterate(TurnOf(c, pid, program), m, k)
  }

  ghost function FlatRun(program: seq<Instruction>, f: FlatMachine, n: nat): FlatMachine {
    Iterate(CycleOf(program), f, n)
  }

  /** How many of the first k turns executed an instruction, that is, were not faults. */
  ghost function Executed(c: Config, pid: Pid, program: seq<Instruction>, m: Machine, k: nat): nat
    requires c.pageSize > 0
  {
    Progress(TurnOf(c, pid, program), FaultOf(c, pid, program), m, k)
  }

  /** The flat program only ever addresses words inside pages of the process. */
  ghost predicate AlwaysInRange(c: Config, program: seq<Instruction>, size: nat, f: FlatMachine)
    requires c.pageSize > 0
  {
    AlwaysGood(CycleOf(program), InRangeOf(c, program, size), f)
  }

  lemma TurnsSimulate(c: Config, pid: Pid, program: seq<Instruction>, others: Flat, size: nat)
    requires c.pageSize > 0
    ensures Simulation(TurnOf(c, pid, program), FaultOf(c, pid, program), CycleOf(program), InRangeOf(c, program, size),
                       SimulatesOf(c, pid, program, others, size))
  {
    forall m, f | Simulates(c, pid, program, others, size, m, f) && InRange(c, program, size, f.pc)
      ensures if WillFault(c, pid, program, m)
        then SimulatesOf(c, pid, program, others, size)(Turn(c, pid, program, m), f) &&
             !WillFault(c, pid, program, Turn(c, pid, program, m))
        else SimulatesOf(c, pid, program, others, size)(Turn(c, pid, program, m), FlatCycle(program, f))
    {
      if WillFault(c, pid, program, m) {
        FaultTurn(c, pid, program, others, size, m, f);
      } else {
        InstructionTurn(c, pid, program, others, size, m, f);
      }
    }
  }

  /** Main theorem: after any number of turns the machine over paged memory has the registers, program counter and
      memory of the flat interpreter after the executed instructions, and no instruction took more than one fault: the
      turns are at most twice the instructions, and one more while an instruction is being retried. */
  lemma ProgramSimulation(c: Config, pid: Pid, program: seq<Instruction>, others: Flat, size: nat,
                          m: Machine, f: FlatMachine, k: nat)
    requires c.pageSize > 0 && AlwaysInRange(c, program, size, f) && Simulates(c, pid, program, others, size, m, f)
    ensures var e, t := Executed(c, pid, program, m, k), Turns(c, pid, program, m, k);
      && Simulates(c, pid, program, others, size, t, FlatRun(program, f, e))
      && e <= k <= 2 * e + if WillFault(c, pid, program, t) then 0 else 1
  {
    TurnsSimulate(c, pid, program, others, size);
    Simulated(TurnOf(c, pid, program), FaultOf(c, pid, program), CycleOf(program), InRangeOf(c, program, size),
              SimulatesOf(c, pid, program, others, size), m, f, k);
  }

  /** And every instruction of the flat run is reached, within twice as many turns. */
  lemma EveryInstructionIsReached(c: Config, pid: Pid, program: seq<Instruction>, others: Flat, size: nat,
                                  m: Machine, f: FlatMachine, n: nat) returns (k: nat)
    requires c.pageSize > 0 && AlwaysInRange(c, program, size, f) && Simulates(c, pid, program, others, size, m, f)
    ensures n <= k <= 2 * n && Executed(c, pid, program, m, k) == n
    ensures Simulates(c, pid, program, others, size, Turns(c, pid, program, m, k), FlatRun(program, f, n))
  {
    TurnsSimulate(c, pid, program, others, size);
    k := Reached(TurnOf(c, pid, program), FaultOf(c, pid, program), CycleOf(program), InRangeOf(c, program, size),
                 SimulatesOf(c, pid, program, others, size), m, f, n);
  }

  /** Such a machine exists for every process of every run of the memory process, whenever no fault is in flight. */
  lemma RunsStartSimulations(c: Config, events: seq<Event>, states: seq<Memory>, i: nat, pid: Pid,
                             program: seq<Instruction>, regs: Registers, pc: Word)
    requires IsTrace(c, events, states) && (c.algorithm.Fifo? || VictimsResident(events, states))
    requires CreationsSpare(events, states) && i <= |events|
    requires pid in states[i].sizes && states[i].pending == []
    ensures var flat := FlatAfter(c, events[..i]);
      pid in flat && Simulates(c, pid, program, flat, states[i].sizes[pid],
                               Machine(regs, pc, states[i], None), FlatMachine(regs, pc, flat[pid]))
  {
    PagingIsInvisible(c, events, states, i);
    var flat := FlatAfter(c, events[..i]);
    SameFlatHolds(c, pid, flat, states[i], flat[pid], flat);
  }
}
