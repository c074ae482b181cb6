# A verified model of the operating system in four processes

The system is a small operating system split over four processes that talk through sockets: a kernel that schedules,
a CPU, a memory process with demand paging, and a file system with a FAT and a swap area. This project models the parts
in which the state is shared, long-lived or easy to break, in Dafny, and proves what they keep over every run.

The code that updates things in place is modelled in place: a class per process or table, whose methods reassign its
fields or write its arrays, each tied by its `ensures` to a function on values; the properties are then proved about those
functions and about every run of them. A run is a sequence of events from an empty system; one event is one message handled,
one turn of a thread, or one system call returned by the CPU, taken as a single step.

| file | what it models |
|---|---|
| `Bytes.dfy` | words, two's complement, memcpy |
| `Paging.dfy`, `MemoryModule.dfy`, `SwapArea.dfy` | page tables, frames, replacement list, faults in flight, swap blocks: the functions and the two processes that update them |
| `PagingStructure.dfy`, `PagingInvariant.dfy` | what every message keeps: frames, lists and faults in flight; the content of pages and blocks |
| `PagingRuns.dfy`, `PagingOrder.dfy` | whole runs against a flat memory; FIFO and LRU told from the history |
| `PagingLimits.dfy`, `OneFrame.dfy` | exactly where paging stops being invisible, and two runs that get there |
| `SwapAccounts.dfy` | free, owned and leaked swap blocks |
| `Stuttering.dfy`, `Cpu.dfy`, `CpuAmongOthers.dfy` | a generic simulation with lost turns; the CPU's cycle over paged memory against an interpreter over flat memory, alone and among other processes |
| `CpuBursts.dfy`, `CpuProcess.dfy` | what each instruction does to the registers, why a turn ends and where a burst of turns stops; the dispatch loop |
| `FileLocks.dfy`, `FileLockTable.dfy` | the read/write lock queue of each file |
| `Resources.dfy`, `Deadlocks.dfy`, `ResourceTable.dfy` | counted resources, wake-ups, deadlock and its analysis |
| `Scheduler.dfy`, `ProcessQueues.dfy` | process queues, semaphores as counters, admission, dispatch |
| `Dispatching.dfy`, `Killing.dfy` | told from the whole run: the order of every queue, whom a policy dispatches, how often each semaphore is posted; what comes of a kill in a sleep |
| `ManualFinish.dfy` | the console's wait for a process it takes out of EXEC, and exactly when it never ends in the scheduler alone |
| `JointKernel.dfy` | the scheduler and the resources as one kernel |
| `LostFinish.dfy`, `LostRuns.dfy` | exactly when that wait never ends in this kernel, and two runs that get there |
| `Fat.dfy`, `FatTable.dfy` | the FAT chain allocator and truncation |
| `Wire.dfy`, `PcbCodec.dfy`, `PcbBuffers.dfy` | numbers, strings, pages, lists, packages and PCBs as bytes |

Where the code departs from its intent, the code is kept and the exact boundary is proved:

- A page made only of `'0'` characters looks like a free swap block once it is written there. That does no harm by itself: over
  whole runs of either algorithm paging is invisible, and the memory invariant holds (pages in frames and blocks of their own,
  clean pages equal to their blocks, an exact replacement list), if and only if every replacement takes out a resident page and no
  creation takes a block that a page needs (`PagingIsInvisibleIff`). Which blocks a creation takes is `BlankBlockIsHandedOutIff`; blocks of
  live processes never look free exactly if no such page is swapped out (`BlocksStayReservedIff`), which is enough
  (`NoBlankSwapOutsIsEnough`); and `BlankPageIsLost` is a run in which a process loses its page.
- A creation whose instruction file is missing leaks its swap blocks for ever: `SwapIsAccountedFor` and `CreationSucceedsIff`.
- Under LRU a reference between a fault and the arrival of its page can make the pending page the victim. Over whole runs frames
  stay apart exactly if every replacement takes out a resident page (`FramesStayApartIff`), the next replacement does exactly if no
  fault in flight is older than the last reference to every resident page (`LruVictimIsResidentIff`), and `LruCanShareAFrame`
  reaches a state where two pages share a frame. FIFO always takes out a resident page (`ServedFirstIsEnough`).
- A word may cross into the next page exactly in the situation of `CrossingExactly`.
- Releasing several instances of one resource posts one wake-up: `SafeToRemoveIff` and `WakeUpCanBeLost`.
- The deadlock analysis never misses a deadlock (`NoDeadlockIsMissed`) but reports some that are none (`AnalysisCanCryWolf`); a
  process is in a deadlock exactly if it is left when the processes that can go on are dropped again and again, or if no chain of
  waits leads from it to one that can go on, and `ReportIsRightIff` applies both to the process that a WAIT blocks.
- F_WRITE looks only at the kind of the head lock: `ForwardedBySoleHolderIff` and `StrangerMayWrite`.
- F_OPEN in a mode other than R or W leaves EXEC occupied for ever: `AbandonedIff`, `AbandonedForEver` and
  the run `SlotCanBeAbandoned`.
- The console can wait for ever for a manual finish, and then does nothing any more (`ConsoleIsDeaf`). In the scheduler alone,
  where every other wait may end, it does exactly when nothing is posted and its interrupt is gone, or its process is in EXIT or
  eliminated, or nobody acts on EXEC (`ManualFinish.ManualFinishIsLostIff`, one run for each of the three). With the resources,
  where processes may call what they like but an instance comes only from somebody who gives it, it does exactly in these cases,
  or when its process is in a deadlock, or when nobody is left who could wake anybody (`LostFinish.ManualFinishIsLostIff`, with
  the runs `TargetCanDeadlock` and `TargetCanBeForgotten`). Waits for a file are still taken to end at will in both, which a wait
  for oneself does not (`SelfWaitIsForever`).
- The CPU keeps one set of registers for all processes: whenever its turn comes a process is on the track of its flat run if and
  only if whenever its turn comes it finds the registers as it left them, whatever they held meanwhile (`OnTrackIff`), which need
  not be so (`RegistersAreShared`).
- Killing the only process in NEW during an admission, until another is created: `DoomedIff`, `DoomedEndsIff` and
  `AdmissionCanBeDoomed`.
- free_blocks writes its terminator at entry `blocks_needed + 1`: `ShrinkKeepsIff` and `ShrinkCanBreak`.
- Growing a file drops one block each time a new block is reached, and a full disk gives fewer than asked for: `FileIsCoveredIff`.
- An empty package is taken for a closed connection: `ReceivedAsSentIff`.

## Model

| member | source | states |
|---|---|---|
| PagingRuns.PagingIsInvisible | memory/src/user_memory/real_memory.c:37-100 | after any run with any number of faults in flight, in which no creation takes a block that a page needs, every page of every live process, read from its frame or else its swap block, is the corresponding slice of a flat array per process, and the whole memory invariant holds; under LRU, replacements must take out resident pages |
| PagingRuns.ReadsAgree | memory/src/command/command.c:117-128 | in the same runs every word MOV_IN returns is the word the flat memory holds at that address |
| PagingRuns.NoBlankSwapOutsIsEnough | file-system/src/fs-struct/fat-bloque.c:325-349 | in a run that copies no modified page of only '0' characters to its block, no creation takes a block that a page needs |
| PagingRuns.FramesStayApart | memory/src/user_memory/real_memory.c:37-100 | in every state of such runs, whatever pages contain, present pages sit in distinct frames, a bit is set exactly when a present page owns its frame, and the list holds exactly the resident and the pending pages, once each |
| PagingRuns.ServedFirstIsEnough | memory/src/user_memory/real_memory.c:43-59 | every replacement of every FIFO run takes out a resident page, and so does every replacement of an LRU run that serves each fault before the next reference |
| PagingInvariant.ArriveKeeps | memory/src/command/command.c:59-79 | a page coming in keeps every invariant and the content of every page; when no frame is free, if the head of the list is resident |
| PagingInvariant.ArriveKeepsReservedIff | memory/src/user_memory/swaping/swaping.c:68-82 | swap blocks stay reserved over a replacement if and only if the victim is clean or its content is not all '0' |
| PagingInvariant.StoreKeeps | memory/src/command/command.c:106-116 | a store inside a resident page keeps frames owned, clean pages equal to their blocks, and the list, whatever is in flight |
| PagingInvariant.RequestLoadKeeps | memory/src/command/command.c:49-58 | a fault changes no content, and list_page keeps agreeing with the requests on their way |
| PagingInvariant.CreateKeeps | memory/src/user_memory/paging/pages.c:33-51 | a creation that takes no block a page needs keeps every invariant, whether or not it makes a table |
| PagingInvariant.CreateViews | file-system/src/fs-struct/fat-bloque.c:351-380 | every page of a new process reads as zeros, and no other page changes, even a modified one whose block is zeroed without a table |
| PagingInvariant.ReserveFresh | file-system/src/fs-struct/fat-bloque.c:325-380 | the blocks reserved are distinct, were free, are zeroed and no longer look free; the others are untouched |
| PagingInvariant.ReserveTakesWhatThereIs | file-system/src/fs-struct/fat-bloque.c:361-377 | as many blocks are reserved as were asked for, or as many as look free |
| PagingInvariant.ReservesIff | file-system/src/fs-struct/fat-bloque.c:351-380 | a block is reserved if and only if it looks free and fewer blocks than are asked for look free in front of it |
| PagingInvariant.FinishKeeps | memory/src/instruction_memory/process/process.c:45-57 | the end of a process keeps all invariants of the others |
| PagingInvariant.FinishReleases | memory/src/user_memory/paging/pages.c:86-103 | it gives back exactly the frames of the process, makes its blocks look free, and leaves none of its pages in the replacement list |
| PagingStructure.FramesAreCounted | memory/src/user_memory/real_memory.c:61-88 | as many bits of the frame bitmap are set as pages are present |
| PagingOrder.FifoIsLoadOrder | memory/src/user_memory/paging/algorithms.c:15-29 | with any number of faults in flight the list is the resident pages in load order followed by the pending pages in request order |
| PagingOrder.FifoVictimIsOldest | memory/src/user_memory/real_memory.c:43-59 | the FIFO victim is resident and every other resident page was loaded after it |
| PagingOrder.LruIsReferenceOrder | memory/src/user_memory/paging/algorithms.c:31-46 | in every state of every LRU run the list is in order of last reference, recomputed from the whole history, and holds no page twice |
| PagingOrder.LruVictimIsLeastRecent | memory/src/user_memory/real_memory.c:43-59 | in every run whose replacements take out resident pages, the LRU victim is the resident page whose last reference is oldest |
| PagingOrder.LruVictimIsResidentIff | memory/src/user_memory/real_memory.c:43-50 | the next LRU replacement takes out a resident page if and only if no fault in flight is older than the last reference to every resident page |
| PagingLimits.VictimMustBeResident | memory/src/user_memory/real_memory.c:43-50 | replacement keeps frames apart if and only if the head of the list is resident |
| PagingLimits.FramesStayApartIff | memory/src/user_memory/real_memory.c:43-59 | over a whole run, of either algorithm, present pages sit in distinct frames in every state if and only if every replacement takes out a resident page |
| PagingLimits.PagingIsInvisibleIff | file-system/src/fs-struct/fat-bloque.c:325-380 | over a whole run of either algorithm, in every state the invariant holds and paging shows the flat memories if and only if every replacement takes out a resident page and every creation takes only blocks that no page needs |
| PagingLimits.BlocksStayReservedIff | file-system/src/fs-struct/fat-bloque.c:325-349 | over a whole run no block of a live process ever looks free if and only if no modified page of only '0' characters is copied to its block |
| PagingLimits.BlankBlockIsHandedOutIff | file-system/src/fs-struct/fat-bloque.c:325-377 | a new process shares a block with a live page if and only if the block of some live page looks free with fewer free-looking blocks in front of it than the process asks for |
| SwapAccounts.SwapIsAccountedFor | memory/src/instruction_memory/process/process.c:5-24 | over every run that swaps out no page of only '0' characters, each swap block is free, owned by exactly one page, or leaked by a creation without instruction file, and their numbers add up to the swap area |
| SwapAccounts.LeaksAreForEver | memory/src/instruction_memory/process/process.c:7-11 | a block that a creation without instruction file has leaked is, in every later state of such a run, owned by no page, and would be taken by no reservation of any size |
| SwapAccounts.CreationSucceedsIff | file-system/src/fs-struct/fat-bloque.c:351-380 | in such a run a new process gets its table if and only if its pages, the pages there are and the blocks leaked so far fit in the swap area together |
| PagingLimits.CrossingExactly | memory/src/command/command.c:106-111 | a word store may cross into the next page, whatever its value, if and only if that page lies in the next frame and is already modified |
| OneFrame.LruCanShareAFrame | memory/src/user_memory/paging/algorithms.c:31-46 | a run of an LRU memory from empty to two present pages in one frame |
| OneFrame.BlankPageIsLost | file-system/src/fs-struct/fat-bloque.c:325-349 | a FIFO run in which a process fills its page with '0' characters, the page is replaced and another process is created: both own one block, and the first reads zeros where its flat memory holds '0' characters |
| MemoryModule.MemoryProcess.constructor | memory/src/user_memory/real_memory.c:6-15 | an empty memory with as many clear bits as whole pages fit |
| MemoryModule.MemoryProcess.CheckAvailableFrames | memory/src/user_memory/real_memory.c:61-82 | the lowest clear bit is found and set, or none is and nothing changes |
| MemoryModule.MemoryProcess.ReferencePage | memory/src/user_memory/real_memory.c:17-35 | under FIFO an absent page goes last in the list and a present one stays; under LRU the page goes last and stands nowhere else |
| MemoryModule.MemoryProcess.LoadPageRequest | memory/src/command/command.c:49-58 | LOAD_PAGE changes list_page, the list and the requests as the model's step does |
| MemoryModule.MemoryProcess.FileSystemAnswers | file-system/src/fs-struct/fat-bloque.c:427-444 | the oldest request is answered with the block as it is |
| MemoryModule.MemoryProcess.SwapPageIn | memory/src/user_memory/swaping/swaping.c:50-66 | the page is present in the frame, which holds the data, and nothing else changes |
| MemoryModule.MemoryProcess.SwapPageOut | memory/src/user_memory/swaping/swaping.c:68-82 | a modified page goes to its block, a clean one is dropped; afterwards it is absent and clean |
| MemoryModule.MemoryProcess.LoadArrivedPage | memory/src/user_memory/real_memory.c:90-100 | the page gets the lowest free frame with the data, or the frame of the first page of the list, which leaves and is copied to its block if modified |
| MemoryModule.MemoryProcess.PageArrives | memory/src/command/command.c:59-79 | a reply serves the oldest entry of list_page, or nothing if there is none |
| MemoryModule.MemoryProcess.Translate | memory/src/command/command.c:88-96 | a frame if and only if the page is resident |
| MemoryModule.MemoryProcess.Store | memory/src/command/command.c:106-116 | MOV_OUT on a resident page writes the four bytes, marks the page modified and refers to it; on an absent page nothing changes and a fault is answered |
| MemoryModule.MemoryProcess.Load | memory/src/command/command.c:117-128 | MOV_IN on a resident page answers the word at that address and refers to the page; on an absent page nothing changes and a fault is answered |
| MemoryModule.MemoryProcess.PageTableCreate | memory/src/user_memory/paging/pages.c:33-51 | one absent, clean page per block, in order |
| MemoryModule.MemoryProcess.CreateProcess | memory/src/instruction_memory/process/process.c:5-24 | blocks are reserved in any case, as many as there are; the table is made if the instruction file was found; the memory survives if and only if no more blocks are asked for than exist and, with a table to make, as many are reserved as asked for |
| MemoryModule.MemoryProcess.DestroyPageEntry | memory/src/user_memory/paging/pages.c:86-94 | the frame of a present page is freed and the page leaves the list |
| MemoryModule.MemoryProcess.DestroyPages | memory/src/user_memory/paging/pages.c:96-103 | every present page of a table gives its frame back and every page of it leaves the list |
| MemoryModule.MemoryProcess.ReleaseBlocks | memory/src/user_memory/swaping/swaping.c:31-41 | all swap blocks of a table are filled with '0', and no others |
| MemoryModule.MemoryProcess.EndProcess | memory/src/instruction_memory/process/process.c:45-57 | END_PROCESS fills the blocks of the process with '0', frees its frames, and takes its pages off the list and its table out of the tables |
| SwapArea.SwapStore.FindFreeSwapBlock | file-system/src/fs-struct/fat-bloque.c:325-349 | the lowest block made only of '0', or none |
| SwapArea.SwapStore.ReserveSwapBlocks | file-system/src/fs-struct/fat-bloque.c:351-380 | the lowest free blocks one after the other, zeroed; nothing when more are asked for than exist |
| SwapArea.SwapStore.FreeSwapBlocks | file-system/src/fs-struct/fat-bloque.c:382-405 | every existing block of the list is filled with '0', other indices are skipped |
| SwapArea.SwapStore.WriteToSwapBlock | file-system/src/fs-struct/fat-bloque.c:407-425 | exactly that block is replaced; an index outside is refused |
| SwapArea.SwapStore.ReadFromSwapBlock | file-system/src/fs-struct/fat-bloque.c:427-444 | the content of a block inside the area; an index outside is refused |
| Paging.AddressParts | cpu/src/instructions/decode.c:44-49 | every logical address, also a negative one, is a number of whole pages and a displacement of less than a page, both on its side of zero |
| Cpu.ProgramSimulation | cpu/src/command/dispatch.c:20-57 | for a process that runs alone, after any number of turns over paged memory, registers, program counter and memory are those of the flat interpreter after the executed instructions; at most one fault per instruction |
| Cpu.EveryInstructionIsReached | cpu/src/command/dispatch.c:20-57 | every instruction of the flat run is executed, within twice as many turns |
| Cpu.RunsStartSimulations | cpu/src/command/dispatch.c:19-22 | every process of every run of the memory, when no fault is in flight, is the start of such a simulation |
| Cpu.InstructionTurn | cpu/src/instructions/execute.c:3-113 | SET, SUM, SUB with wrap-around, JNZ, MOV_IN and MOV_OUT do over paged memory what they do over flat memory, as `CpuBursts.FlatEffect` and `CpuBursts.FlatStore` tell it |
| Cpu.FaultTurn | cpu/src/instructions/decode.c:13-39 | a fault changes neither registers, program counter nor content, and the retry does not fault |
| CpuBursts.PutThenGet | cpu/src/instructions/execute.c:211-232 | a write to a register is read back from it and from no other |
| CpuBursts.FlatEffect | cpu/src/instructions/execute.c:233-264 | on the fields of the registers: SET gives the number, SUM and SUB the sum and difference modulo 2^32, MOV_IN the little-endian word at the address, to that register alone; JNZ goes to its target exactly if the register is not zero, and everything else to the next instruction, except EXIT |
| CpuBursts.FlatStore | cpu/src/instructions/execute.c:90-113 | MOV_OUT makes the four bytes at the address those of the register and changes no other byte; no other instruction changes memory |
| CpuBursts.TurnDoes | cpu/src/command/dispatch.c:22-55 | a turn over paged memory fails to fetch exactly outside the program, faults exactly if its page is missing, and otherwise does to the registers and the program counter what its instruction says, and is given back exactly for a kernel call or EXIT |
| CpuBursts.BurstStops | cpu/src/command/dispatch.c:22-55 | the turns between two messages of the kernel end with the first that cannot fetch, faults, calls the kernel or is EXIT, for that reason, or with the interrupt found after n turns that went on; nothing behind is executed |
| CpuBursts.CallStandsBehind | cpu/src/instructions/execute.c:36-66 | a process given back with a call stands just behind a kernel call |
| CpuAmongOthers.ProgramAmongOthers | cpu/src/command/dispatch.c:20-57 | with turns, accesses, faults, replacements, creations and ends of other processes between any two of its turns, and its own faults served among theirs, a process that finds the registers as it left them whenever its turn comes, whatever they held meanwhile, has the program counter and memory of the flat interpreter after as many instructions as it executed, and left the registers that the interpreter has |
| CpuAmongOthers.OnTrackIff | cpu/src/command/dispatch.c:20-57 | in every state in which its turn comes the process has the registers, program counter and memory of its flat run if and only if in every such state it finds the registers as it left them at the end of its last turn |
| CpuAmongOthers.RegistersAreShared | cpu/src/command/dispatch.c:19-22 | a turn in which another process sets AX leaves the registers as they were only if AX had that value |
| CpuAmongOthers.MemoryStaysSound | memory/src/command/command.c:106-128 | whatever the others do to the registers, paging goes on showing the flat memory of every process, as long as addresses stay inside |
| CpuAmongOthers.RetryFaultsOnlyWhenTakenOut | memory/src/user_memory/real_memory.c:43-59 | among other processes, whatever happens to the registers, an instruction tried again after a fault faults again only if its page was taken out by a replacement in between |
| CpuAmongOthers.RunsStartSharedRuns | cpu/src/command/dispatch.c:19-22 | every process in every state of every run of the memory, whatever is in flight, is the start of such a run |
| CpuProcess.Processor.Translate | cpu/src/instructions/decode.c:44-67 | page and displacement of a logical address by C's truncating division, and a fault if and only if the page is absent |
| CpuProcess.Processor.Decode | cpu/src/instructions/decode.c:3-42 | an instruction that touches memory sets or clears PAGE_FAULT in the PCB as its page is absent or present; any other leaves it |
| CpuProcess.Processor.Execute | cpu/src/instructions/execute.c:3-209 | registers, memory and program counter after one instruction, and the reason it ends with, as in the cycle that the simulations and `CpuBursts.TurnDoes` are about |
| CpuProcess.Processor.Dispatch | cpu/src/command/dispatch.c:19-60 | fetch, decode, execute until a fault, a call, the end, a failed fetch or an interrupt after n instructions, as `CpuBursts.BurstStops` is about |
| FileLocks.LocksStaySafe | kernel/src/planificadores/corto_plazo/file_system/file_system.c:13-34 | in every state of every run: at most one read lock per queue, one participant per write lock, exactly the granted openings and the released waiters at the head, everybody behind it waiting without a post |
| FileLocks.WritersExclude | kernel/src/planificadores/corto_plazo/file_system/file_system.c:129-189 | whoever has a file open for writing is its only holder |
| FileLocks.WriteByHolder | kernel/src/planificadores/corto_plazo/file_system/file_system.c:296-327 | for a process with the file open, F_WRITE is forwarded if and only if it opened it for writing, and then it is the sole holder |
| FileLocks.ForwardedBySoleHolderIff | kernel/src/planificadores/corto_plazo/file_system/file_system.c:303-312 | a forwarded F_WRITE comes from the sole holder if and only if the process has the file open |
| FileLocks.StrangerMayWrite | kernel/src/planificadores/corto_plazo/file_system/file_system.c:303-312 | a run in which F_WRITE is forwarded for a process that never opened the file |
| FileLocks.CloserIsAtHead | kernel/src/planificadores/corto_plazo/file_system/file_system.c:191-206 | the lock at index 0 that a close takes is the closing process's own, of the kind it asked for |
| FileLocks.CloseReleasesExactly | kernel/src/planificadores/planificador.c:204-255 | a close releases nobody while others remain in the lock; when the lock leaves, exactly the waiters of the next one, once each |
| FileLocks.EliminateKeeps | kernel/src/planificadores/planificador.c:257-277 | a removed process finds each of its locks, closes only heads, and takes part in none afterwards |
| FileLocks.OpeningWaitsIff | kernel/src/planificadores/corto_plazo/file_system/file_system.c:129-173 | an opening for writing waits if and only if somebody has the file, one for reading if and only if somebody has it for writing |
| FileLocks.OpeningJoins | kernel/src/planificadores/corto_plazo/file_system/file_system.c:13-34 | an opening goes last in the first read lock of the queue, or alone in a new lock behind them all, which is marked as blocked exactly if the process has to wait; the other locks stay as they are |
| FileLocks.OpenOutcome | kernel/src/planificadores/corto_plazo/file_system/file_system.c:81-189 | an opening is granted or waits behind the head, and nobody else's changes |
| FileLocks.SecondOpeningWaitsIff | kernel/src/planificadores/corto_plazo/file_system/file_system.c:129-173 | opening a file again waits for oneself if and only if one of the two openings is for writing |
| FileLocks.SelfWaitIsForever | kernel/src/planificadores/corto_plazo/file_system/file_system.c:58-79 | in every continuation of a run, a process that waits for a lock behind its own stays waiting for it |
| FileLockTable.OpenFiles.AddRead | kernel/src/planificadores/corto_plazo/file_system/file_system.c:13-34 | the first read lock takes the process in, or a new one is appended |
| FileLockTable.OpenFiles.FOpen | kernel/src/planificadores/corto_plazo/file_system/file_system.c:81-189 | an opening for reading joins the read lock of the queue or appends one, one for writing appends its own; the process goes on or waits as the head of the queue says |
| FileLockTable.OpenFiles.WakeUp | kernel/src/planificadores/corto_plazo/file_system/file_system.c:58-79 | a waiting thread takes its post: the process no longer waits in the lock and has the file open |
| FileLockTable.OpenFiles.PostAll | kernel/src/planificadores/planificador.c:214-225 | a blocked head gets one post per participant |
| FileLockTable.OpenFiles.Close | kernel/src/planificadores/planificador.c:204-255 | the participant leaves its lock; when the lock is empty it leaves the queue and every participant of a blocked next lock gets one post |
| FileLockTable.OpenFiles.FClose | kernel/src/planificadores/corto_plazo/file_system/file_system.c:191-206 | the first entry of the file leaves the open files of the process, and the lock at index 0 is closed for it |
| FileLockTable.OpenFiles.EliminateProcess | kernel/src/planificadores/planificador.c:257-277 | every open file of a removed process is closed at the lock that holds the process, and its open files are gone |
| Resources.ResourcesAreConserved | kernel/src/planificadores/resources/resources.c:3-57 | in every state free instances plus all holdings are the configured total, no instance count is negative, holdings are positive, and a process waits once at most |
| Resources.RemovedHoldsNothing | kernel/src/planificadores/planificador.c:280-292 | a process that is gone holds nothing and waits for nothing |
| Resources.NoWakeUpIsLost | kernel/src/planificadores/corto_plazo/block/block.c:3-18 | min(free instances, blocked processes) never exceeds the pending posts, while no removed process holds more instances of a resource than it holds resources |
| Resources.NobodyIsForgotten | kernel/src/planificadores/corto_plazo/block/block.c:3-18 | so with no post pending nobody waits in front of a free instance |
| Resources.NobodyIsOvertaken | kernel/src/planificadores/corto_plazo/block/block.c:3-18 | over every run, as long as a process waits for a resource, whoever came to its queue later and is not removed waits behind it |
| Resources.SafeToRemoveIff | kernel/src/planificadores/planificador.c:280-292 | a removal loses no wake-up in any state if and only if the process holds no more instances of any resource than it holds resources |
| Resources.WakeUpCanBeLost | kernel/src/planificadores/planificador.c:284-288 | a run that ends with a process waiting in front of a free instance and no post |
| Deadlocks.DeadlockIsForever | kernel/src/planificadores/corto_plazo/block/block.c:3-18 | no run of waits, signals, unblocks and removals of outsiders releases a member of a deadlocked set |
| Deadlocks.DeadlockStaysIff | kernel/src/consola/finalizar_proceso/finalizar_proceso.c:63-73 | a step ends a deadlock if and only if it removes a member |
| Deadlocks.NewDeadlockIsReported | kernel/src/planificadores/deadlock/deadlock.c:3-30 | a set becomes deadlocked only when one of its members blocks, and the analysis made then reports |
| Deadlocks.NoDeadlockIsMissed | kernel/src/planificadores/deadlock/deadlock.c:3-85 | every deadlock in every run was reported when the last of its members blocked |
| Deadlocks.InDeadlockIff | kernel/src/planificadores/deadlock/deadlock.c:42-68 | a process is in some deadlock if and only if it is left when processes that are not stuck among the rest are dropped from the blocked ones until nothing changes |
| Deadlocks.InDeadlockIffNoWayOut | kernel/src/planificadores/deadlock/deadlock.c:42-68 | a process is in a deadlock if and only if no chain of waits, by way of holders of what is waited for, leads from it to a process that can go on |
| Deadlocks.ReportIsRightIff | kernel/src/planificadores/deadlock/deadlock.c:3-30 | over every run, when a WAIT blocks a process: if it is in a deadlock the analysis reports, and the report is right about it if and only if it is in the core of the blocked processes, that is, no chain of waits leads from it to a process that can go on |
| Deadlocks.ReportsIff | kernel/src/planificadores/deadlock/deadlock.c:42-68 | the analysis decides whether all holders of the resource are blocked |
| Deadlocks.AllBlockedDeadlockedIff | kernel/src/planificadores/deadlock/deadlock.c:42-68 | without dropping anybody: all the blocked processes together are deadlocked if and only if the analysis would report on each resource with waiters and none of these is free |
| Deadlocks.AnalysisCanCryWolf | kernel/src/planificadores/deadlock/deadlock.c:42-51 | a run in which it reports and no set is deadlocked |
| ResourceTable.Kernel.WaitInstance | kernel/src/planificadores/resources/resources.c:16-32 | a free instance is recorded for the process, or it joins the end of the list and the analysis runs on the new state and reports or not |
| ResourceTable.Kernel.SignalInstance | kernel/src/planificadores/resources/resources.c:34-57 | a holder gives one instance back, with one post, and goes on; whoever holds none does not and nothing changes |
| ResourceTable.Kernel.ServeFreed | kernel/src/planificadores/corto_plazo/block/block.c:3-18 | one post serves the head of every list whose resource is free, over all resources |
| ResourceTable.Kernel.RemoveProcess | kernel/src/planificadores/planificador.c:280-292 | instances go back, one post per resource held |
| ResourceTable.Kernel.WaitsFor | kernel/src/planificadores/deadlock/deadlock.c:53-67 | the resources in whose lists a process is blocked |
| ResourceTable.Kernel.Analyze | kernel/src/planificadores/deadlock/deadlock.c:3-85 | the three passes of the analysis decide what `Reports` says |
| Scheduler.QueuesStayInOrder | kernel/src/planificadores/planificador.c:111-135 | in every state: every live process is in exactly one place, the degree is kept, READY never waits behind an empty EXEC without a post, nobody in NEW or EXIT is forgotten |
| Scheduler.DegreeIsRespected | kernel/src/planificadores/largo_plazo/largo_plazo.c:36-53 | processes admitted and not gone plus free places of grd_mult are always the degree |
| Scheduler.ExecIsNeverAbandoned | kernel/src/planificadores/corto_plazo/execute/execute.c:3-66 | without an F_OPEN in another mode, an occupied EXEC has exactly one of a post, the CPU or its manual finish, an empty one none, and a READY process always has somebody to move it on |
| Scheduler.AbandonedIff | kernel/src/planificadores/corto_plazo/file_system/file_system.c:185-188 | EXEC becomes abandoned exactly by the return of an F_OPEN whose mode is neither R nor W |
| Scheduler.AbandonedForEver | kernel/src/planificadores/corto_plazo/execute/execute.c:3-8 | in every continuation of a run an abandoned EXEC stays occupied by the same process |
| Scheduler.SlotCanBeAbandoned | kernel/src/planificadores/corto_plazo/file_system/file_system.c:185-188 | a run, from any degree but zero, in which the first process opens a file in another mode and EXEC is abandoned |
| Scheduler.DoomedIff | kernel/src/planificadores/largo_plazo/largo_plazo.c:43-50 | the admission is left to take the head of an empty NEW exactly by killing the only process there while it waits for grd_mult |
| Scheduler.DoomedEndsIff | kernel/src/planificadores/largo_plazo/largo_plazo.c:43-50 | and that ends exactly by the creation of a process |
| Scheduler.AdmissionCanBeDoomed | kernel/src/planificadores/largo_plazo/largo_plazo.c:43-50 | from any degree, a run of three steps to an admission that will take the head of an empty NEW |
| Scheduler.ManualFinishIsRight | kernel/src/consola/finalizar_proceso/finalizar_proceso.c:5-16 | the process the console takes out of EXEC, without comparing pids, is the one it was asked to finish |
| ManualFinish.ManualFinishIsLostIff | kernel/src/consola/finalizar_proceso/finalizar_proceso.c:5-16 | over every run of the scheduler alone, where every other wait may end, while the console waits: in no continuation does its wait end if and only if nothing is posted and the interrupt is gone, or the process is in EXIT or eliminated, or nobody acts on EXEC |
| ManualFinish.ConsoleIsDeaf | kernel/src/consola/finalizar_proceso/finalizar_proceso.c:5-16 | from such a state on, no run creates a process, kills one or finishes one by hand |
| ManualFinish.FinishCanBeThrownAway | cpu/src/instructions/check_interrupt.c:19-23 | from any degree that admits two, a run in which a process leaves EXEC by a page fault before its interrupt is looked at, and the next one throws it away |
| ManualFinish.FinishCanComeTooLate | kernel/src/consola/finalizar_proceso/finalizar_proceso.c:5-16 | a run in which the process ends by itself before the interrupt is looked at |
| ManualFinish.FinishCanMeetNobody | kernel/src/consola/finalizar_proceso/finalizar_proceso.c:5-16 | a run in which the process is in an EXEC abandoned by an F_OPEN in another mode |
| Scheduler.ReturnGoesWhere | kernel/src/planificadores/corto_plazo/execute/execute.c:12-64 | over every run, for each reason the CPU returns with and what its handler finds out: the one queue at whose end the process goes, or that it stays in EXEC, and the places and posts that follow |
| Dispatching.QueuesAreInOrderOfArrival | kernel/src/planificadores/planificador.c:176-187 | in every state of every run every queue is in the order in which its processes last arrived there |
| Dispatching.DispatchTakes | kernel/src/planificadores/corto_plazo/prioridades/prioridades.c:7-24 | a dispatch into an empty EXEC takes, under priorities, the process of READY with the least priority value and of equals the one ready for longest, and under FIFO and round robin the one ready for longest |
| Dispatching.AdmitTakesOldest | kernel/src/planificadores/largo_plazo/largo_plazo.c:43-50 | an admission takes the process that has been new for longest to READY, and moves nobody else |
| Dispatching.DrainTakesOldest | kernel/src/planificadores/largo_plazo/largo_plazo.c:3-34 | the thread of EXIT eliminates the process that has been there for longest, and nobody else |
| Dispatching.PostsAreCounted | kernel/src/planificadores/planificador.c:114-135 | in every step of every run proceso_en_cola_ready is posted once for whoever enters READY or leaves EXEC, executing_process for whoever enters EXEC or has a call served at once, process_in_new and process_in_exit for whoever enters NEW and EXIT, and each loses one at a turn of its thread |
| Dispatching.SendFindsAProcess | kernel/src/planificadores/corto_plazo/execute/execute.c:4-8 | execute_process never takes a post while EXEC is empty |
| Killing.MarkedIff | kernel/src/consola/finalizar_proceso/finalizar_proceso.c:47-60 | a process carries the end state MANUAL exactly if the console killed it while it slept, was interrupted or had its page loaded, and it has not come back from the CPU since |
| Killing.WaitEndsTheProcessIff | kernel/src/planificadores/corto_plazo/block/block.c:42-66 | the end of a wait eliminates the process exactly if it was a sleep or an interruption and the console killed the process since it last came back from the CPU; otherwise the process becomes ready |
| Killing.KilledNeverReturns | kernel/src/consola/finalizar_proceso/finalizar_proceso.c:47-60 | a process killed while it sleeps or is interrupted is in no later state ready or in EXEC: it stays there or is gone |
| Killing.KilledLeavesAtTheEnd | kernel/src/planificadores/corto_plazo/block/block.c:42-62 | the step that takes it away is the end of its wait, and gives its place of grd_mult back |
| Scheduler.PlacesFollowTheDiagram | kernel/src/planificadores/planificador.c:111-187 | over every run the places of each process are a path of the state diagram, each arrow taken by its own events and, out of EXEC, by its own reasons, and in each step one process moves at most |
| JointKernel.KernelStaysLinked | kernel/src/planificadores/resources/resources.c:16-57 | in every state of every run of the whole kernel, scheduler and resources agree on who lives and on who is blocked for each resource, in the same order |
| JointKernel.TableRuns | kernel/src/planificadores/planificador.c:257-294 | the table of every run of the whole kernel is that of a run of the resources, guards included: the process of EXEC is alive and blocked nowhere when it calls |
| JointKernel.SchedulerRuns | kernel/src/planificadores/resources/resources.c:16-57 | the queues of every run of the whole kernel are those of a run of the scheduler in which each WAIT and SIGNAL is told what the table says |
| JointKernel.WaitLeadsTo | kernel/src/planificadores/resources/resources.c:16-32 | over every run, WAIT on an unknown resource leads to EXIT; with a free instance the process gets one and goes on; otherwise it goes last in the queue of the resource, and nobody's instances change |
| JointKernel.SignalLeadsTo | kernel/src/planificadores/resources/resources.c:34-56 | SIGNAL by a holder gives one instance back with one wake-up and the process goes on; by anybody else, or on an unknown resource, it leads to EXIT and changes no instance |
| JointKernel.DeadlockedNeverRun | kernel/src/planificadores/resources/resources.c:16-32 | until a member is removed, no member of a deadlock is ever ready or runs again: it stays in the list of its resource in every continuation |
| JointKernel.BlockedForAReason | kernel/src/planificadores/corto_plazo/block/block.c:3-18 | with no wake-up pending, the scheduler keeps a process blocked only for a resource without a free instance, as long as no removed process held more instances of a resource than resources |
| LostFinish.ManualFinishIsLostIff | kernel/src/consola/finalizar_proceso/finalizar_proceso.c:5-16 | over every run of scheduler and resources, while the console waits: in no continuation, whatever the processes call, does its wait end if and only if it is lost for the scheduler alone, or its process is in a deadlock, or no wake-up is pending, no process may run or be admitted, and none that will be eliminated holds an instance |
| LostFinish.ConsoleIsDeaf | kernel/src/consola/finalizar_proceso/finalizar_proceso.c:5-16 | in every such case no later event of the run creates a process, kills one or finishes one by hand |
| LostRuns.TargetCanDeadlock | kernel/src/planificadores/resources/resources.c:16-32 | from any degree that admits three, a run in which the process executes a WAIT that closes a deadlock before its interrupt is looked at: the console waits for ever, though another process goes on and the scheduler alone could end the wait |
| LostRuns.TargetCanBeForgotten | kernel/src/planificadores/planificador.c:280-292 | from any degree that admits three, a run in which the process waits in no deadlock and in front of a free instance, the one wake-up having gone to somebody who then waits elsewhere: the console waits for ever |
| Scheduler.HowItCame | kernel/src/planificadores/planificador.c:111-135 | over every run, wherever a process is, one event took it there along an arrow of the state diagram and it has been there since: what runs was dispatched from READY, what waits in a place came back from the CPU with a reason to wait there |
| ProcessQueues.Queues.Minimum | kernel/src/planificadores/corto_plazo/prioridades/prioridades.c:3-17 | one pass finds the process of least priority value, and of equals the one that is ready longest |
| ProcessQueues.Queues.ShortTermTurn | kernel/src/planificadores/corto_plazo/prioridades/prioridades.c:7-32 | a turn of any of the three short-term schedulers fills an empty EXEC with the process its policy chooses from READY (`Dispatching.DispatchTakes`), and otherwise only takes the post |
| ProcessQueues.Queues.AdmitFirst | kernel/src/planificadores/largo_plazo/largo_plazo.c:45-50 | a place of grd_mult is taken and the head of NEW goes last in READY, with one post |
| ProcessQueues.Queues.ReceiveFromCpu | kernel/src/planificadores/corto_plazo/execute/execute.c:9-65 | for each reason the CPU returns with, the queue the process goes to, the places of grd_mult, and the posts (`Scheduler.ReturnGoesWhere`) |
| ProcessQueues.Queues.CheckInterrupt | cpu/src/instructions/check_interrupt.c:3-28 | a waiting message stops the running process if and only if it is for it, and is thrown away otherwise |
| ProcessQueues.Queues.EndOfWait | kernel/src/planificadores/corto_plazo/block/block.c:32-68 | the process goes last in READY, with one post, or is eliminated if it is marked and slept or was interrupted |
| ProcessQueues.Queues.DrainExit | kernel/src/planificadores/largo_plazo/largo_plazo.c:3-34 | one post takes the head of EXIT out of the system, if there is one |
| ProcessQueues.Queues.FinishProcess | kernel/src/consola/finalizar_proceso/finalizar_proceso.c:3-77 | the queues are searched in order; the process is eliminated, marked (`Killing.MarkedIff`) or interrupted by where it is found, and one waiting for a file or the file system is not found |
| Fat.AssignKeeps | file-system/src/fs-struct/fat-bloque.c:61-115 | on any well-formed disk a new chain of min(ceil(size/block)+1, free) blocks, in range, without cycle, ended and disjoint from all others; without a free block, none |
| Fat.AddKeeps | file-system/src/fs-struct/fat-bloque.c:132-175 | a chain keeps its blocks and gets min(n, free) more; the others stay; when it gets none the table does not change |
| Fat.Accounted | file-system/src/fs-struct/fat-bloque.c:13-22 | on every well-formed disk free blocks plus chain lengths are all the blocks behind block 0 |
| Fat.GrowLength | file-system/src/fs-struct/fat-bloque.c:80-100 | as many blocks are linked as were asked for, or as many as are free |
| Fat.ShrinkKeepsIff | file-system/src/fs-struct/fat-bloque.c:198-213 | free_blocks leaves a well-formed disk with exactly the first blocks_needed + 1 blocks of the file if and only if the entry it overwrites is the last kept block, already an end, or outside the table |
| Fat.ShrinkCanBreak | file-system/src/fs-struct/fat-bloque.c:204-210 | a disk on which the traversal never ends afterwards |
| Fat.GrowthLosesBlocks | file-system/src/command/command.c:246-256 | each growth that reaches a new block is one block short |
| Fat.SeriesKeeps | file-system/src/command/command.c:229-256 | after a first size and any series of growths, even when the disk fills up midway, the disk is well formed, the other files have their chains, and the file has as many blocks as it asked for or as many as were free |
| Fat.FileIsCoveredIff | file-system/src/command/command.c:246-256 | on any well-formed disk, after any such series, the chain covers the file size if and only if that many blocks were free at first and at most one growth reached a new block, one more if the first size was not a multiple of the block, one less if the last is not |
| FatTable.FileAllocationTable.FindFreeBlock | file-system/src/fs-struct/fat-bloque.c:24-49 | the lowest free block other than the current one, never block 0 |
| FatTable.FileAllocationTable.AssignBlockSize | file-system/src/fs-struct/fat-bloque.c:61-115 | on a table the first block of a chain of ceil(size / block) + 1 blocks, or as many as are free; -1 and no change without a free block |
| FatTable.FileAllocationTable.FindLastBlock | file-system/src/fs-struct/fat-bloque.c:117-129 | it ends on every chain and answers the last block |
| FatTable.FileAllocationTable.AddBlocks | file-system/src/fs-struct/fat-bloque.c:132-175 | behind the last block of the chain that many free blocks are linked, lowest first, or as many as there are, and the last of them is the end |
| FatTable.FileAllocationTable.RecorrerBlocks | file-system/src/fs-struct/fat-bloque.c:177-195 | it ends on every chain and lists exactly its blocks in order |
| FatTable.FileAllocationTable.FreeBehind | file-system/src/fs-struct/fat-bloque.c:198-213 | the blocks behind index blocks_needed of the chain become free, and entry blocks_needed + 1 of the table becomes the end |
| FatTable.FileAllocationTable.TruncateFile | file-system/src/command/command.c:229-272 | the same size changes nothing, an empty file gets a chain, a growth asks for the difference of whole blocks less one, a shrink frees what is behind; the FCB has the new size |
| Wire.TextTrip | utils/src/pcb/fs.c:12-22 | a C string of any length is read back up to its NUL, and its length is what was declared |
| Wire.PageTrip | utils/src/page/page.c:118-156 | a page reference is read back |
| Wire.MovOutTrip | utils/src/page/page.c:85-172 | a page reference with a value is read back |
| Wire.TransferTrip | utils/src/page/page.c:100-208 | pages with content, for a file or for swap, are read back |
| Wire.ListTrip | utils/src/package/package.c:46-80 | a list of ints is read back |
| Wire.ReceivedAsSentIff | utils/src/package/package.c:125-143 | any sequence of packages is received as it was sent if and only if none is empty and none has the op code -1 |
| PcbCodec.PcbTrip | utils/src/pcb/pcb.c:95-178 | for every instruction and any number of open files the parser takes exactly the printed bytes, gives the PCB with its end state reset, and their number is the separately computed size |
| PcbCodec.PrintedAlike | utils/src/pcb/pcb.c:206-311 | two PCBs printed alike differ in the end state at most |
| PcbCodec.ParamsTrip | utils/src/pcb/pcb.c:102-147 | the parameters of every instruction are read back and have the computed size |
| PcbCodec.ContentTrip | utils/src/pcb/fs.c:3-117 | the parameters of the file instructions are read back from a buffer of their own |
| PcbCodec.FilesTrip | utils/src/pcb/pcb.c:165-175 | the open files are read back in order |
| PcbBuffers.SerializedSize | utils/src/pcb/pcb.c:43-76 | the loop over the open files computes the number of bytes that the PCB is printed in |
| PcbBuffers.SerializePcb | utils/src/pcb/pcb.c:95-178 | the buffer allocated by that size is filled exactly with the printed PCB |
| PcbBuffers.DeserializeFiles | utils/src/pcb/pcb.c:290-307 | the loop over the open files reads what the parser reads |

## Left out

- Atomicity: a handler, a reference with the turn of the sorter, a translation with the access that follows, the test of a
  lock with the enqueueing thread, and the UPDATE_SWAP exchange are one step each; interleavings inside them are not modelled.
- PagingRuns.PagingIsInvisible: not for runs in which a creation takes a block that a page needs, nor for LRU runs that replace a
  page still to come; there the invariant or the content is lost, as `PagingLimits.PagingIsInvisibleIff` proves.
- PagingStructure.CanCreate: a run ends where a creation asks for more blocks than exist, or makes a table with too few, since
  the code dereferences NULL there; `MemoryModule.MemoryProcess.CreateProcess` says when and what is left behind.
- PagingRuns.ReadsAgree: stores and loads inside one page only (`WordInPage`); `CrossingExactly` says when a crossing store is harmless.
- PagingInvariant.FinishKeeps: no fault of the process that ends is in flight (the kernel does not end a process during one).
- Cpu.ProgramSimulation: addresses inside the process; SLEEP, WAIT and SIGNAL count as instructions that go on, and the file
  calls F_OPEN to F_TRUNCATE and the transfers of F_READ and F_WRITE are not instructions of the model.
- MOV_IN_FS and MOV_OUT_FS: they use the frame number without looking at presence.
- Page size and block size are one constant, as the swap exchange needs; the size in bytes of the frame bitmap, which the code
  takes from a pointer, is taken to be one bit per frame.
- CpuAmongOthers.ProgramAmongOthers: only while the process finds the registers as it left them whenever its turn comes, since
  the CPU never loads them from the PCB it receives (cpu/src/command/dispatch.c:20-22); `CpuAmongOthers.OnTrackIff` is the exact
  condition.
- Scheduler.AbandonedIff: an F_OPEN in another mode calls log_error with a string in place of the logger
  (kernel/src/planificadores/corto_plazo/file_system/file_system.c:185-188), which is undefined in C; in the model the thread
  returns and leaves EXEC occupied.
- LostFinish.ManualFinishIsLostIff: waits for a page, a file or the file system may end at any time, as in
  ManualFinish.ManualFinishIsLostIff; a process that waits for a lock that is never released (`FileLocks.SelfWaitIsForever`) counts
  as one that may come back.
- FileLocks.LocksStaySafe: modes R and W; another mode leaves the process in EXEC for ever (`Scheduler.AbandonedIff`), so its
  entry among the open files is never used. The answers of the file system, file sizes and F_SEEK are not modelled.
- The content of files: read_file and write_file compute their address without the FAT chain.
- FileLocks is a machine of its own: in Scheduler the outcome of F_OPEN and F_WRITE comes with the event. `JointKernel` joins the
  scheduler with the resources only.
- Scheduler: the degree is fixed, the pause of the planner is left out, and a kill in SLEEP or INTERRUPT is the mark alone (the
  code returns there with a mutex held). The quantum and preemption by priority are interrupts that may come at any time.
- Fat.SeriesKeeps: sizes are not negative, and one block is free at first; a file whose first truncation found none keeps -1 as
  its initial block and has no chain. Truncating to zero and growing again, which starts a second chain, is left out.
- FatTable.FileAllocationTable.TruncateFile: writing the table and the FCB to disk.
- PcbCodec.PcbTrip: the serialized size fits an int; params are unspecified after INTERRUPTED and INTERRUPT_FINISH, which carry none.
- Wire.ReceivedAsSentIff: streams that were sent whole; a connection that closes inside a package is not modelled.
- Sockets, handshakes, configuration, logs, delays, the console's parser, process start-up, and freeing of memory.
