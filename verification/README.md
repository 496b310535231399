# A verified model of the osmium kernel

osmium is a small kernel for one RISC-V hart. This project models its three hard cores in Dafny and
proves what the kernel relies on but its boot self-tests can only sample:

* **Memory.** Physical pages, the intrusive free list inside them, Sv39 page tables made of them, and
  the process address spaces built, cloned, grown and freed by spawn, fork, exec, demand paging and reaping.
* **The kernel heap.** The first-fit, address-ordered, coalescing free list kept in the heap's own memory.
* **Concurrency and traps.** Interrupt nesting across context switches, the scheduler, sleep and wakeup,
  semaphores and the bounded channel, the waiting loops, and the trap entry and exit protocol.

`System.System` puts the process table, the scheduler, the waiting loops and the devices together. `System.PowerOn` seeds
the page allocator, builds the kernel table and handles any sequence of events; unless the kernel runs out of pages and
panics, every page then has exactly one holder and every sleeping thread still waits for something that has not
happened. `System.System.Run`, from any state on, says the same and adds isolation: every process that was live either
is dead for good or has the memory, the break and the answers that its own events alone explain, whatever the others did
in between; and `System.Watch` concludes that such a process saw an eager, zero-filled heap. `Pipes.Pipe.Run` puts the
bounded channel into that system.

`dafny verify dfyconfig.toml` checks everything.

## Files

| file | what it holds |
|---|---|
| `Options.dfy`, `Bytes.dfy`, `Bits.dfy` | options; bytes inside 64-bit words; the kernel's bit expressions as arithmetic |
| `PageTables.dfy` | table entries, the software walk as a function, page roles, the invariant `TreeOk` |
| `Phys.dfy` | `PhysMem`: page allocator, `walk`, `map_pages`, `translate` |
| `KernelTable.dfy`, `UserTables.dfy`, `AddressSpaces.dfy` | building the kernel table; making, cloning, loading and freeing process tables |
| `Sv39.dfy` | the hardware's translation algorithm, and its agreement with the software walk |
| `ThreadStates.dfy`, `Processes.dfy`, `Scheduler.dfy`, `RoundRobin.dfy`, `Sleepers.dfy` | `ProcTable`: spawn, fork, exec, sbrk, page faults, exit, reaping, dispatch, the waiting loops |
| `Builds.dfy`, `Spawning.dfy`, `Programs.dfy` | images under construction, and spawn_user one step at a time; the first fetch of a program |
| `Mirroring.dfy`, `Isolation.dfy`, `Events.dfy`, `Survivors.dfy` | the table as the machine of waits; whom an event touches; what it means to its process; the heap a process saw |
| `System.dfy`, `Pipes.dfy` | the whole kernel, from power-on over any sequence of events; a channel in it |
| `DemandPaging.dfy`, `UserAccess.dfy`, `UserCopy.dfy` | the lazy heap against an eager one; user loads and stores; kernel copies |
| `HeapSpec.dfy`, `HeapRuns.dfy`, `KernelHeap.dfy` | the heap as intervals, over every run, and in memory |
| `Semaphores.dfy`, `Channels.dfy` | interleavings of `wait`, `signal`, `send` and `recv` |
| `Interrupts.dfy`, `Waiting.dfy`, `Console.dfy` | push_off and pop_off across switches; who sleeps and why; the input ring |
| `TrapFrames.dfy`, `Traps.dfy`, `TrapProtocol.dfy` | the trap frame; entry and exit instruction by instruction; sscratch and the saved frames over every run |

Objects the kernel updates in place are classes whose methods state their whole new state
(`Phys.PhysMem`, `Processes.ProcTable`, `System.System`, `KernelHeap.KernelHeap`, `Channels.Channel`, `Interrupts.Cells`,
`Console.Ring`, `Traps.Hart`, `Pipes.Pipe`). Interleavings are transition systems whose steps are the regions the kernel runs with
interrupts off; `Interrupts.RegionsAtomic` is the reason why these regions are steps.

**Ownership.** Every page of the allocator's pool has a ghost role (free, root, table, frame, or loose: in the hands of
a thread and in no table yet). A role is a function of the page, so two owners are impossible by construction; what every
operation has to keep is that the roles tell the truth about the words in memory (`PageTables.TreeOk`), that every root
belongs to exactly one process, to the kernel, or to an image still being built (`Processes.SpacesOk`), and that every
loose page is in the hands of exactly one such build (`Builds.BuildsOk`).

## Where the code does not do what one would expect

* **The scheduler's own pop_off.** For threads, the outermost pop_off restores the interrupt state its push_off found
  (`Interrupts.RegionRestores`). For the scheduler's context it does not: sched() saves INTENA for the thread but nothing saves
  it for the scheduler, so after a preempted thread switches back, the scheduler's pop_off leaves interrupts off
  although its push_off found them on (`Interrupts.SchedulerExample`). `Interrupts.SchedulerRestores` gives the exact
  condition. The loop repairs it by turning interrupts on at its top.
* **The last heap page.** A lazily mapped heap behaves as an eager one except for accesses at or above the break in a
  heap page that was never touched: the page would have been mapped by an eager sbrk, but the fault handler refuses it.
  `DemandPaging.RunsAgree` is an if-and-only-if; `DemandPaging.SlackExample` is the shortest program that shows it.
* **A channel of capacity zero** can be created, and leaves a sender and a receiver asleep on each other
  (`Channels.ZeroWedges`); from capacity one on that never happens (`Channels.NeverWedges`).
* **join on a pid that is not published yet.** spawn takes its pid before the region that makes the process visible, so
  a spawning thread can be preempted in between. A join on that pid returns at once, and the process comes alive later
  (`Waiting.JoinTooEarly`). What join reported stays true if and only if the pid was issued and is in no spawning
  thread's hands (`Waiting.NeverAgain`).
* **fork called by a kernel thread** does not return an error, although a comment in it says so, since kernel threads
  also have a `current` slot. It makes a child with an empty user half whose heap bounds are zero
  (`Processes.ProcTable.ForkKernelThread`): not a user process, since its heap is not in the heap window. So fork keeps the
  table's invariant if and only if its caller is a user process. In the same way sbrk called by a kernel thread moves its
  break, and keeps the invariant if and only if the break does not move (`Processes.ProcTable.Sbrk`).
* **Copying no bytes.** A kernel copy of length zero at an address that is not page aligned is still refused if user code
  cannot access that address; aligned, it is accepted wherever it is below VA_MAX. `UserCopy.AcceptsMeans` has the exact
  condition; a range that is not empty is accepted iff user code could access every byte of it.
* **The embedded `.user` section** is mapped read-only without the U bit, against its comment; the model follows the code.

## Model

| member | source | states |
|---|---|---|
| Bits.AlignUpIsMask | src/heap.rs:52-54 | the mask expression of align_up is rounding up to a multiple, for every power of two and every sum that fits a word |
| Bits.FlagTests | src/vm.rs:18-27 | testing an entry with `&` against V, R, W, X or U tests that bit |
| Bits.MaskedPerm | src/vm.rs:27-27 | masking with PERM_MASK keeps exactly the R, W, X and U bits |
| Bits.EntriesWritten | src/vm.rs:75-106 | the entries walk and map_pages write with shifts and bitwise or hold the page, the permissions and A, D, V in separate fields |
| Bits.PageOfPte | src/vm.rs:40-42 | pte_to_pa gives back the page of any entry without reserved bits |
| Bits.Indices | src/vm.rs:45-47 | vpn extracts the three table indices of an address below VA_MAX |
| Bits.Rebuilt | src/vm.rs:272-272 | the address clone_user_table rebuilds from its indices is the page those indices name |
| Bits.Offset | src/vm.rs:117-117 | the physical address translate returns is page base plus offset |
| Bits.SppTest | src/kernelvec.S:128-130 | the mask of the exit path tests the SPP bit |
| Phys.PhysMem.constructor | src/kalloc.rs:36-49 | the pool is exactly the whole pages of [alloc_start, PHYS_TOP) that do not overlap the reserved range, all free |
| Phys.InPoolBytes | src/kalloc.rs:40-48 | a page is seeded iff none of its bytes lies in the reserved range |
| Phys.PhysMem.Pop | src/kalloc.rs:53-63 | the locked part of alloc: the head of the intrusive list is taken off, with what is in it; fails iff no page is free |
| Phys.PhysMem.Alloc | src/kalloc.rs:53-68 | pops the head of the intrusive list, zeroed; fails iff no page is free; no translation changes |
| Phys.PhysMem.Free | src/kalloc.rs:75-93 | pushes the page, poisoned, at the head; no translation changes |
| Phys.PoisonedBytes | src/kalloc.rs:85-91 | every byte of a freed page behind the list node is 0x5a |
| Phys.PhysMem.Walk | src/vm.rs:62-80 | finds the slot of the leaf entry, or with `alloc` makes it reachable without changing any translation or any other table; fails only with fewer than two pages left |
| Phys.PhysMem.MapPages | src/vm.rs:88-108 | afterwards exactly the requested pages translate to the requested frames with the requested permissions; every other translation of this and of every other root is unchanged |
| Phys.PhysMem.Translate | src/vm.rs:111-118 | returns the valid leaf entry if there is one, and changes nothing |
| Phys.PhysMem.MapFresh | src/vm.rs:256-285 | a fresh page with given contents mapped at one user page: nothing else changes, and three free pages always suffice |
| PageTables.LinkKeepsTree | src/vm.rs:75-76 | linking a zeroed page as a lower table keeps the ownership invariant |
| PageTables.LinkKeepsLookup | src/vm.rs:75-76 | and changes no translation of any root |
| PageTables.MapKeepsTree | src/vm.rs:99-106 | writing a leaf for an unowned frame keeps the ownership invariant |
| PageTables.MapLookup | src/vm.rs:99-106 | and changes exactly one translation, of the roots that reach that table |
| PageTables.DataWrite | src/vm.rs:276-278 | writing a page that is no table changes no translation |
| KernelTable.KvmMake | src/vm.rs:121-180 | the kernel table maps exactly the devices, the sections and the rest of DRAM, each page to itself; walking it, the hardware lets the kernel fetch from text only, store to data, the rest of DRAM and the devices only, and load from those, text, rodata and the embedded programs, and translates nothing in the user gigabyte |
| KernelTable.EntryAccess | src/vm.rs:121-180 | the entry of a page permits to the kernel what the section it lies in permits, by the section boundaries and the device addresses alone |
| KernelTable.KernelAccess | src/vm.rs:121-180 | so through any root with the kernel map, a fetch, load or store by the kernel succeeds in hardware iff the section permits it, and goes to the page itself |
| UserTables.MakeUserTable | src/vm.rs:234-249 | a new root that sees exactly the kernel's translations; all other roots are unchanged |
| UserTables.FreeUserTable | src/vm.rs:294-317 | exactly the pages owned by this root become free, as many as it owned; every other root translates as before; the root must not be the active one |
| AddressSpaces.CloneUserTable | src/vm.rs:255-285 | the child's user view has the same pages, permissions and contents as the parent's, on frames that were free, also when the parent is the kernel's own table; every other space is untouched; fails only with no page left |
| AddressSpaces.LoadUserImage | src/proc.rs:199-236 | the new space shows every byte of the image at USER_TEXT plus its index in text pages, zeros behind it, one zeroed stack page and nothing else, on frames that were free; every other space is untouched; fails only with no page left |
| AddressSpaces.ImageShown | src/proc.rs:199-236 | the text pages have R, X and U and not W, the page below USER_STACK_TOP has R, W and U and not X, and there is no other page, for every image that fits |
| AddressSpaces.LoadableMeans | src/proc.rs:199-207 | an image fits iff it has at least one byte and at most the bytes between USER_TEXT and the stack page |
| Bytes.ImagePageGet | src/proc.rs:211-222 | byte for byte, an image page holds the image and then zeros |
| Bytes.SetByteGet | src/syscall.rs:93-97 | writing a byte changes that byte of the page and no other |
| Sv39.WalkAgrees | src/vm.rs:62-118 | the hardware walk finds the software's leaf, at level 0, on every table the kernel builds |
| Sv39.PageOfCanonical | src/vm.rs:45-47 | the page number of a canonical address, sign-extended from bit 38, is one of 2^27, and a non-canonical address has none |
| Sv39.TranslateAgrees | src/vm.rs:111-118 | an access succeeds in hardware iff translate finds an entry whose bits allow it, and goes to that frame |
| Sv39.Protection | src/vm.rs:121-180 | in every table and for every page of both canonical halves: user code reaches only the user gigabyte, the kernel sees itself identity-mapped and never runs user pages, and nothing is both writable and executable |
| Processes.Partition | src/kalloc.rs:53-93 | every page of the pool has exactly one holder: the free list, the kernel, one process, or one image being built, whether in its tables or only in its hands |
| Processes.ProcTable.constructor | src/proc.rs:115-122 | the empty table over the booted kernel memory, with next_slot 0 and the first pid |
| Processes.ProcTable.TakePid | src/proc.rs:145-145 | the next pid, never given before, is in the hands of the caller; nothing else changes |
| Processes.ProcTable.Publish | src/proc.rs:170-177 | the region of spawn_with: a process with a pending pid gets the first empty slot or a new one, the pid is no longer pending, and nothing else changes |
| Processes.ProcTable.StartThread | src/proc.rs:192-194 | with a pid in hand, a kernel thread on the kernel's table in the first empty slot |
| Processes.ProcTable.Spawn | src/proc.rs:192-194 | both steps of spawn when nothing interrupts it: a kernel thread on the kernel's table, in the first empty slot; memory, current and next_slot are unchanged |
| Processes.ProcTable.SpawnUser | src/proc.rs:240-245 | a process without open files whose memory is the image: every byte of it lies from the entry point on in pages user code can run, the stack pointer is the end of a page user code can read and write, the heap is empty and above both; every other process keeps record and memory; current and next_slot are unchanged |
| Processes.ProcTable.Fork | src/proc.rs:283-304 | the child has the parent's memory, heap bounds, files and frame but for a0 = 0 and a new pid; the parent and everyone else are unchanged |
| Processes.ProcTable.ForkKernelThread | src/proc.rs:283-304 | called by a kernel thread, fork makes a child with an empty memory and heap bounds zero, which is no user process: the table is not valid afterwards |
| Processes.ProcTable.Exec | src/proc.rs:250-277 | the process has the new image from its new entry point on, a stack under its new stack pointer and an empty heap; it keeps pid and files, and satp names the new table; the old table's pages are free, and every free page was free before or belonged to the old table |
| Processes.ProcTable.Sbrk | src/proc.rs:551-564 | moves the break and returns the old one iff the new one stays within USER_HEAP_MAX without wrapping; maps nothing; the table stays valid iff the caller is a user process or the break does not move |
| Processes.ProcTable.ServicePageFault | src/proc.rs:570-592 | adds one zeroed RW page at a reserved, unmapped heap address and changes nothing else; refuses in exactly the listed cases; panics only with one or two pages left |
| Builds.LoadedNext | src/proc.rs:207-234 | mapping the next page of an image extends the view by that page, which was not there |
| Builds.BesideBuilds | src/proc.rs:199-236 | a change to one space, to free pages or to its own new pages keeps every build of another space |
| Builds.BuildsStep | src/proc.rs:199-236 | a step of one build keeps all the others: no page is in two hands |
| Spawning.StepKeeps | src/proc.rs:199-236 | a step of a build keeps every address space, every heap and the kernel map |
| Spawning.Begin | src/proc.rs:199-206 | a new build, with nothing in hand |
| Spawning.Take | src/kalloc.rs:53-63 | a build gets a page in hand, with what is in it, or there is none; no process changes |
| Spawning.Zero | src/kalloc.rs:65-67 | the page in hand is zeroed; nobody else sees it |
| Spawning.MakeRoot | src/vm.rs:234-249 | the page in hand becomes the root of a space with the kernel's half and an empty user half |
| Spawning.Fill | src/proc.rs:210-215 | the page in hand gets the next page of the image |
| Spawning.LinkTable | src/vm.rs:74-77 | the page in hand becomes a missing table; no translation changes |
| Spawning.WriteLeaf | src/vm.rs:94-106 | the filled page is mapped: the view under construction is one page further |
| Spawning.Step | src/proc.rs:199-236 | whatever a build has to do next keeps the whole table valid, every process with its record and memory, and every other build; it stops only when complete or when no page is free |
| Spawning.Finish | src/proc.rs:240-245 | with a pid in hand, the complete build becomes a process in the first empty slot, with the image from its entry point on and a stack under its stack pointer; nobody else changes |
| Processes.FreshStarts | src/proc.rs:182-189 | the record attach_user_space writes fits the view load_user_image builds: entry and stack pointer mean, in that view, the first byte of the image and the end of the stack |
| Programs.StartsRuns | src/proc.rs:199-245 | with such a record the hardware, walking the process table in U-mode, fetches byte n of the image at entry + n, and lets user code read and write the whole page under the stack pointer |
| Programs.CurrentRunsProgram | src/proc.rs:327-332 | and once such a process is running, satp is its table |
| Programs.UserThreadBody | src/proc.rs:327-351 | after user_thread_body the hart is about to fetch the image from sepc on, in U-mode, with sp at the end of its stack |
| Programs.ExecProgram | src/proc.rs:250-277 | after exec the hart is about to fetch the new image from sepc on, in U-mode, with sp at the end of the new stack, through the table satp then names |
| Processes.ActiveRoot | src/vm.rs:199-207 | at every step boundary satp names a live root, the running process's or the kernel's, and through it the kernel sees the whole map it booted with |
| System.ActiveAccess | src/vm.rs:199-207 | in every valid state, through whatever table satp names, the kernel can fetch, load and store exactly where the sections of the kernel image permit it |
| Processes.RootSeesKernel | src/vm.rs:240-246 | outside the user gigabyte every root translates as the kernel's |
| DemandPaging.StepAgrees | src/proc.rs:570-592 | a step of the lazy heap and of an eager one agree iff the access is not to an untouched page at or above the break |
| DemandPaging.RunsAgree | src/proc.rs:551-592 | two whole runs agree iff no step is such an access |
| DemandPaging.DemandPagingRefinesEager | src/proc.rs:551-592 | every program that stays below its break observes an eager zero-filled heap and is never killed |
| DemandPaging.NeverKilled | src/trap.rs:146-161 | such a program runs to the end |
| DemandPaging.SlackExample | src/proc.rs:575-579 | growing by one byte and reading the second byte of the page kills the process, though the page is granted |
| DemandPaging.SbrkGrants | src/proc.rs:547-564 | sbrk refuses iff the break would pass 0x6000_0000; otherwise exactly the delta bytes from the returned address on become accessible, a new page reads as zero, and every byte that could be read reads as before |
| DemandPaging.GrantsApart | src/proc.rs:547-564 | over every run, the bytes granted by two calls do not overlap |
| UserAccess.FrameInjective | src/vm.rs:255-285 | no frame is mapped twice, in one space or in two |
| UserAccess.StoreIsolated | src/vm.rs:255-285 | a store through one root shows up in that root's view at that page, and in no other view |
| UserAccess.HwSeesView | src/vm.rs:111-118 | the hardware in U-mode, walking the tables for every canonical address of either half, sees exactly the view of the active root |
| UserAccess.Resolve | src/trap.rs:146-161 | a user access reaches a frame iff the page is mapped with the right bits or is a reserved heap page and a page is free; otherwise the process dies and nothing changed |
| UserAccess.UserLoad | src/trap.rs:146-161 | a load yields the byte of the view, faulting the page in if need be, as the lazy heap machine says |
| UserAccess.UserStore | src/trap.rs:146-161 | a store changes that byte of the view and nothing of any other process, as the lazy heap machine says |
| UserAccess.Poke | src/syscall.rs:93-97 | the store itself: one byte of one view |
| UserAccess.HeapOp | src/proc.rs:551-592 | one sbrk, load or store of the running process is one step of the lazy heap machine |
| UserAccess.HeapProgram | src/proc.rs:551-592 | a whole program of such operations of one process, with three pages left for each, has the outcomes of the lazy machine, and those of an eager heap iff no access is to an untouched page at or above the break |
| UserAccess.FreshHeap | src/proc.rs:187-188 | a process starts with the empty heap from which the theorems about runs start |
| UserCopy.CheckPages | src/syscall.rs:45-63 | accepts iff the range does not wrap, ends at or below VA_MAX and every touched page is U (and W); walk is never called beyond its bound |
| UserCopy.AcceptsMeans | src/syscall.rs:45-63 | a range that is not empty is accepted iff the hardware would let user code load (or store) every byte of it; an empty one iff it is below VA_MAX and aligned or accessible |
| UserCopy.CopyFromUser | src/syscall.rs:45-72 | returns the user's bytes iff the range is accepted |
| UserCopy.CopyToUser | src/syscall.rs:77-99 | writes the bytes iff the range is accepted and otherwise changes nothing; other processes are unaffected |
| UserCopy.StoreAllBytes | src/syscall.rs:93-97 | after the copy a byte of the view is the copied one inside the range and the old one outside |
| UserCopy.KernelMay | src/riscv.rs:113-123 | with SUM set, the hardware lets the kernel at every page it checked |
| Scheduler.Wakeup | src/proc.rs:431-440 | exactly the threads asleep on the channel become Runnable |
| Scheduler.WakeAll | src/proc.rs:431-440 | the loop over the table: every thread asleep on the channel, and nobody else, becomes Runnable |
| Scheduler.Sched | src/proc.rs:374-387 | the running thread leaves in the given state, `current` is cleared and satp is the kernel's |
| Scheduler.Exit | src/proc.rs:447-459 | the thread is marked a zombie, then everyone asleep on the exit channel is woken; nothing else changes |
| Scheduler.Dispatch | src/proc.rs:643-672 | in every valid state the thread closest to next_slot in cyclic order runs, on its own table; with none Runnable nothing changes |
| Scheduler.ReapSlot | src/proc.rs:631-641 | one zombie's slot is emptied and exactly its pages are freed, while satp is the kernel's |
| Scheduler.Reap | src/proc.rs:631-641 | every zombie's slot is emptied, exactly the zombies' pages are freed, every other process keeps slot and memory |
| RoundRobin.Scan | src/proc.rs:644-652 | finds the Runnable slot of least cyclic distance from next_slot, also when next_slot is the table's length, and none iff none is Runnable |
| RoundRobin.PickUnique | src/proc.rs:644-652 | there is only one such slot |
| RoundRobin.Closer | src/proc.rs:654-658 | when another thread is dispatched, a waiting one gets strictly closer, up to the slots appended |
| RoundRobin.BoundedWaiting | src/proc.rs:621-681 | a thread that stays Runnable is passed over at most n - 1 times, plus once for every slot appended meanwhile |
| Sleepers.Join | src/proc.rs:463-481 | one turn of join returns iff no live process has the pid, and otherwise sleeps on the exit channel |
| Sleepers.SleepTicks | src/timer.rs:53-62 | one turn of sleep_ticks returns iff the target tick is reached |
| Sleepers.GetcharBlocking | src/console.rs:90-101 | one turn takes the oldest byte, or sleeps iff the ring is empty |
| Sleepers.OnTick | src/trap.rs:105-110 | the tick is counted and nobody is left asleep on the tick channel |
| Sleepers.OnInput | src/console.rs:59-70 | the byte is queued unless the ring is full, and nobody is left asleep on it |
| Sleepers.ForkCall | src/syscall.rs:103-129 | parent and child resume after the ecall with the same registers, status and memory but for register x10; the child is in the first empty slot with the next pid and nobody else changes |
| HeapSpec.CanonicalUnique | src/heap.rs:1-12 | a sorted list of aligned, non-touching blocks is determined by the bytes it covers |
| HeapSpec.AlignUpLeast | src/heap.rs:52-54 | align_up gives the least multiple not below its argument |
| HeapSpec.AllocatedOk | src/heap.rs:78-152 | an allocation takes its block, and nothing else, out of the free bytes; the list stays sorted, aligned and coalesced; the pointer is aligned and its payload and header lie in the block |
| HeapSpec.AllocatedTight | src/heap.rs:95-122 | the block starts right below the header unless fewer than 32 free bytes lie before it, and ends right behind the payload unless fewer than 32 free bytes lie behind it, which it then absorbs: less than 32 bytes at either end |
| HeapSpec.AllocatedLeast | src/heap.rs:95-122 | it is the least block around header and payload whose removal leaves a well-formed free list: any other contains it |
| HeapSpec.SumCounts | src/heap.rs:74-76 | free_bytes is the number of free bytes |
| HeapSpec.FirstFitComplete | src/heap.rs:83-95 | alloc fails iff no aligned header-plus-payload placement exists anywhere in the free bytes, and otherwise returns the lowest one |
| HeapSpec.FreedOk | src/heap.rs:154-192 | a free adds exactly the block's bytes; the list stays sorted, aligned and coalesced |
| HeapSpec.FreeUndoesAlloc | src/heap.rs:9-12 | freeing what was just allocated restores the list exactly |
| HeapSpec.FreesCommute | src/heap.rs:154-192 | the order of two frees does not matter |
| HeapRuns.LegalRequest | src/heap.rs:79-80 | every Layout becomes a request for the least positive multiple of 16 that holds it, aligned as asked or to 16 if that is more |
| HeapRuns.EveryRun | src/heap.rs:78-192 | after any legal sequence of allocs and frees the live blocks are disjoint, meet their requests with less than 80 bytes of header and slack each, and with the canonical free list divide the region exactly |
| HeapRuns.HistoryIndependent | src/heap.rs:78-192 | two runs that end with the same live bytes end with the same free list |
| HeapRuns.FreeAll | src/heap.rs:154-192 | freeing everything, in any order, restores the single block init made |
| HeapRuns.NoOverflow | src/heap.rs:79-95 | no sum alloc forms overflows 64 bits, for any legal Layout |
| KernelHeap.KernelHeap.constructor | src/heap.rs:57-71 | init: one free block, the whole region |
| KernelHeap.KernelHeap.Alloc | src/heap.rs:78-152 | walking the linked list does what the interval model says: the pointer it finds, with less than 32 bytes of slack at either end of its block, and null iff it refuses; free_bytes drops by the block and stays the sum; no word of any live block is written |
| KernelHeap.KernelHeap.Carve | src/heap.rs:95-146 | the rewiring around the payload takes exactly one block out of the list in memory, with less than 32 bytes of slack at either end, and records it in the header |
| KernelHeap.KernelHeap.Dealloc | src/heap.rs:154-193 | the header read back is the block recorded by alloc, whatever the owner stored meanwhile; the list becomes what the interval model says; no other live block is written |
| KernelHeap.KernelHeap.Return | src/heap.rs:172-192 | linking in with both merges |
| KernelHeap.KernelHeap.Store | src/heap.rs:9-12 | no store of an owner inside its allocation disturbs the list or any header |
| Semaphores.NoLostWakeup | src/sync.rs:33-58 | over every interleaving: a positive count with a sleeper means some thread is between its increment and its wakeup; with sleepers and no such thread, as many waits have returned as there were units and signals |
| Semaphores.Conserved | src/sync.rs:33-58 | over every interleaving, the count and the waits that returned make up the initial count and the signals, both counted from the schedule |
| Channels.StepInv | src/sync.rs:33-98 | every atomic region of send, recv, wait and signal keeps the counting invariant and the wakeup invariant |
| Channels.Fifo | src/sync.rs:82-98 | over every interleaving from any state: the items taken by the receivers, read off the schedule, followed by the buffer are the buffer at first followed by the items put in by the senders, in order |
| Channels.RunCarries | src/sync.rs:82-98 | over every interleaving: the item a thread puts in is the argument of the send it called, and the item it has when recv returns is the one it took |
| Channels.AdmitInv | src/sync.rs:82-98 | a thread that may call later can come into being at any time |
| Channels.ChannelCorrect | src/sync.rs:82-98 | over every interleaving of any number of threads on a new channel: items taken followed by the buffer are the items put in, in order, each the argument of its send and the result of its recv; the buffer respects its capacity, a pop finds an item, no wakeup is lost |
| Channels.StuckMeans | src/sync.rs:60-66 | if everyone inside is asleep, sleeping senders mean a full buffer and sleeping receivers an empty one |
| Channels.NeverWedges | src/sync.rs:71-98 | with capacity at least one, senders and receivers are never all asleep on each other |
| Channels.ZeroWedges | src/sync.rs:73-79 | with capacity zero they are, after four steps |
| Channels.Channel.constructor | src/sync.rs:73-79 | a new channel with all slots free |
| Channels.Channel.WaitEmpty | src/sync.rs:33-50 | one turn of wait on the free slots is one step of the machine |
| Channels.Channel.WaitFull | src/sync.rs:33-50 | one turn of wait on the filled slots is one step of the machine |
| Channels.Channel.PushBack | src/sync.rs:84-84 | the push of send is one step of the machine, recorded in the schedule for which received items followed by the buffer are the sent items |
| Channels.Channel.PopFront | src/sync.rs:91-95 | the pop of recv always finds an item, so its expect cannot fail |
| Channels.Channel.Raise | src/sync.rs:53-56 | the increment of signal is one step of the machine |
| Channels.Channel.Wakeup | src/sync.rs:57-57 | the pass over all threads wakes everyone asleep on that semaphore |
| Pipes.BesideTied | src/proc.rs:423-440 | every step of the rest of the kernel keeps: a thread is asleep in the channel exactly when its process sleeps on the address of the semaphore |
| Pipes.SleepTied | src/sync.rs:33-50 | so does falling asleep on a semaphore found at zero |
| Pipes.WakeTied | src/sync.rs:53-58 | and so does the wakeup, which wakes the same threads in both |
| Pipes.Pipe.constructor | src/sync.rs:73-79 | a new channel in a running kernel |
| Pipes.Pipe.Happens | src/proc.rs:621-681 | any event of the system beside the channel leaves the channel alone |
| Pipes.Pipe.Arrive | src/sync.rs:82-90 | the running thread calls send or recv |
| Pipes.Pipe.FallAsleep | src/sync.rs:33-50 | the running thread sleeps in the process table, and its step of the channel is the one that sleeps |
| Pipes.Pipe.Wake | src/sync.rs:53-58 | wakeup on the process table is the waking step of the channel |
| Pipes.Pipe.Move | src/sync.rs:33-98 | every other region of send and recv is a step of the channel and touches no process |
| Pipes.RealWakeups | src/sync.rs:33-58 | in the process table: if a process sleeps on a semaphore whose count is positive, a process that can run is between its increment and its wakeup |
| Pipes.RealNotWedged | src/sync.rs:71-98 | in the process table: with capacity at least one, the processes inside are never all asleep with senders and receivers among them |
| Pipes.Pipe.Run | src/sync.rs:60-98 | over any events of the whole system and any calls: items received followed by the buffer are the items sent, read off the moves of the channel, which only grow; the capacity is respected, no wakeup is lost and the channel does not wedge in the process table |
| Interrupts.StepInv | src/spinlock.rs:15-54 | every step keeps: NOFF is the running context's own depth, NOFF > 0 implies SIE off, INTENA is what its outermost push_off found, contexts off the hart hold one level and no lock |
| Interrupts.PopRestores | src/spinlock.rs:30-37 | the pop_off that ends a thread's outermost region leaves SIE as that region found it |
| Interrupts.RegionRestores | src/proc.rs:374-387 | the same over whole runs, with any number of switches and steps of other threads in between |
| Interrupts.SchedulerRestores | src/proc.rs:654-672 | on the scheduler's stack it holds iff no thread switched back meanwhile or that thread had found interrupts as the scheduler had |
| Interrupts.SchedulerRegion | src/proc.rs:654-672 | the same over whole runs, with any number of dispatches and switches inside the region: it restores interrupts iff no thread switched back or the last one to do so had found them as the scheduler had |
| Interrupts.SchedulerExample | src/proc.rs:654-672 | a reachable state in which it fails |
| Interrupts.RegionsAtomic | src/spinlock.rs:1-8 | no interrupt can be taken while NOFF > 0 or inside a trap handler |
| Interrupts.LockNeverSpins | src/spinlock.rs:73-83 | no lock is held at a switch or by anyone off the hart, so a lock its holder does not hold already is always free |
| Interrupts.GivesUp | src/proc.rs:390-459 | from depth zero, each path to sched() reaches it with exactly one level and no lock: a push_off alone (yield_now, join, sleep_ticks), a lock taken and dropped inside the region (semaphores, console), a nested region (the wakeup in exit) |
| Interrupts.PreemptionLegal | src/proc.rs:403-418 | wherever an interrupt can be taken on a thread's stack its handler starts at depth zero, so preemption meets what sched() asserts |
| Interrupts.AssertsHold | src/proc.rs:374-375 | the debug assertions of pop_off and sched always hold |
| Interrupts.Cells.PushOff | src/spinlock.rs:21-28 | push_off on the shared cells is one step of the machine |
| Interrupts.Cells.PopOff | src/spinlock.rs:30-37 | pop_off on the shared cells is one step of the machine |
| Interrupts.Cells.Lock | src/spinlock.rs:73-83 | the flag is clear at the first try |
| Interrupts.Cells.Unlock | src/spinlock.rs:103-108 | dropping the guard clears the flag and pops one level |
| Waiting.StepInv | src/proc.rs:423-481 | every check-then-sleep, handler and exit keeps: sleepers still have a reason, the Running thread is `current`, pids are distinct |
| Waiting.SleepingMeansFalse | src/proc.rs:463-481 | at every step boundary of every run: a thread asleep in join(p) has p live, in sleep_ticks its target ahead, for input an empty ring; at most one thread is Running and it is `current` |
| Waiting.ZombieEnds | src/proc.rs:631-641 | a zombie becomes nothing but an empty slot |
| Waiting.DeadUntilPublished | src/proc.rs:170-177 | on any run, a pid that is not alive becomes so if and only if some step of the run publishes it |
| Waiting.NeverAgain | src/proc.rs:145-177 | a pid that is not alive is never alive again, on any run, if and only if it was issued and no spawning thread has it in hand: exactly then what join reported stays true |
| Waiting.JoinTooEarly | src/proc.rs:463-481 | a run from boot in which a join returns on a pid that another thread has taken and not published, and the pid comes alive afterwards |
| Mirroring.MirrorPlace | src/proc.rs:170-177 | publishing a process in the table is the publishing step of the machine of waits |
| Mirroring.MirrorExit | src/proc.rs:447-459 | an exit in the table is the exit step of the machine of waits |
| Mirroring.MirrorGone | src/proc.rs:631-641 | the pid of a zombie in the table is dead for good |
| Isolation.RestersNext | src/proc.rs:621-681 | an event keeps: whoever was not dispatched has record and memory as at first |
| Events.SurvivesNext | src/proc.rs:621-681 | an event keeps: every process that was live at first is dead for good, or is what its own events alone make it |
| Survivors.EventStep | src/proc.rs:551-592 | an event of a process that lives on is a step of the eager heap, or touches no heap |
| Survivors.SurvivorSeesEager | src/proc.rs:551-592 | over any log of events of everyone: a process that was not killed has been told by its heap what an eager, zero-filled heap tells |
| System.System.constructor | src/proc.rs:115-122 | the kernel after boot, with no event so far |
| System.System.Yield | src/proc.rs:390-400 | one step of the machine of waits |
| System.System.Exit | src/proc.rs:447-459 | one step of the machine of waits |
| System.System.Join | src/proc.rs:463-481 | one step of the machine of waits, with the joined pid as the reason to sleep |
| System.System.SleepTicks | src/timer.rs:53-62 | one step of the machine of waits, with the target as the reason to sleep |
| System.System.Getchar | src/console.rs:90-101 | one step of the machine of waits, with input as the reason to sleep |
| System.System.SleepOn | src/proc.rs:423-428 | one step of the machine of waits, on any other channel |
| System.System.WakeOn | src/proc.rs:431-440 | one step of the machine of waits |
| System.System.Tick | src/trap.rs:105-110 | one step of the machine of waits |
| System.System.Receive | src/console.rs:59-70 | one step of the machine of waits |
| System.System.Reap | src/proc.rs:631-641 | one step of the machine of waits |
| System.System.Dispatch | src/proc.rs:643-672 | one step of the machine of waits, and the next round of the scheduler |
| System.System.TakePid | src/proc.rs:145-145 | a pid is issued, also in the machine of waits; nobody is touched |
| System.System.StartThread | src/proc.rs:170-177 | a new thread, also in the machine of waits; nobody is touched |
| System.System.BuildStep | src/proc.rs:199-236 | a step of a build disturbs no process and no other build |
| System.System.FinishImage | src/proc.rs:240-245 | a new process, also in the machine of waits; nobody is touched |
| System.System.Fork | src/proc.rs:283-304 | a new process, also in the machine of waits, in one event; nobody is touched, the parent included; fails only with no page left |
| System.System.Exec | src/proc.rs:250-277 | the caller has the memory and break of the new image; nobody else is touched and no wait changes; fails only with no page left |
| System.System.Access | src/trap.rs:146-161 | a user load or store does to the process what its own memory and break say, or the process dies; nobody else is touched |
| System.System.Sbrk | src/proc.rs:551-564 | a function of the break of the process; nobody else is touched |
| System.System.CopyIn | src/syscall.rs:45-72 | a function of the memory of the process; nobody is touched |
| System.System.CopyOut | src/syscall.rs:77-99 | a function of the memory of the process; nobody else is touched |
| System.System.Handle | src/proc.rs:621-681 | every event takes its steps of the machine of waits, keeps the whole state valid, touches no live process but the running one, and does to that one what its own memory and break say; it fails only with no page left |
| System.System.Run | src/proc.rs:621-681 | after any sequence of events: every page has one holder; every sleeper still has its reason; every process that was not dispatched has its record, but for the state, and its memory; every process that was live is dead for good, or has the memory, break and answers that replaying its own events alone gives |
| System.Watch | src/proc.rs:551-592 | over any run of the whole kernel, a process that is not dead at the end was told by its heap what an eager, zero-filled heap tells, whatever the others did in between |
| System.PowerOn | src/main.rs:94-119 | the same from power-on: the pool is exactly the pages init seeds, after any events each has one holder, and the kernel can fetch, load and store exactly where its sections permit |
| System.ValidPartitioned | src/kalloc.rs:53-93 | in every valid state every page of the pool has exactly one holder |
| System.Fair | src/proc.rs:621-681 | bounded waiting over the real dispatches of any run of the kernel |
| Console.InOrder | src/console.rs:42-82 | over every run, bytes read followed by bytes queued are the bytes that waited at first followed by the arrivals, 13 read as 10, that found fewer than 256 waiting, in order; no more than 256 wait |
| Console.Ring.constructor | src/console.rs:50-54 | the empty ring |
| Console.Ring.OnInput | src/console.rs:59-70 | queues the byte, with CR as NL, unless 256 are queued |
| Console.Ring.Getchar | src/console.rs:73-82 | the oldest byte, or None iff the queue is empty |
| Console.Drive | src/console.rs:59-82 | any sequence of arrivals and reads on the ring itself: the bytes it returned followed by those it holds are those it held and took in, in order |
| Traps.Hart.SaveGp | src/kernelvec.S:22-53 | SAVE_GP stores every register but sp in its slot, and nothing else |
| Traps.Hart.Enter | src/kernelvec.S:91-118 | the frame holds every register, sepc and sstatus of the interrupted code; it lies below sscratch, or below sp if that is zero; sscratch is then zero |
| Traps.Hart.Leave | src/kernelvec.S:120-138 | the interrupted code gets the frame as the handler left it; before a return to user mode sscratch is the top of this stack |
| Traps.Hart.TrapAndReturn | src/kernelvec.S:91-138 | a trap and its return, for every handler that keeps its stack pointer: exactly what the frame says is restored, and sscratch is as before |
| Traps.Hart.UserRet | src/userret.S:16-58 | the child gets every register, sepc and sstatus of the frame, and sscratch is its kernel stack |
| Traps.Hart.EnterUser | src/proc.rs:338-351 | sscratch is armed, sepc is the entry, sp the user stack and no other register changes; SPP is clear and SPIE set, and every other status bit is as before |
| TrapProtocol.StepInv | src/kernelvec.S:7-13 | every step, among them exit, reaping and a spawn on a stack that was freed, keeps the shape of every kernel stack and of sscratch, the stacks in use apart, and every saved frame in memory at its place |
| TrapProtocol.StackReused | src/proc.rs:631-641 | once a zombie is reaped, its stack may be written by anyone and be the stack of a new thread |
| TrapProtocol.ScratchMeansUser | src/kernelvec.S:7-13 | sscratch is nonzero exactly in user mode and in the window before sret, and is then the running process's own stack |
| TrapProtocol.TrapPlace | src/kernelvec.S:91-112 | every trap from user mode saves at the running process's kstack_top; every trap from the kernel saves right below the interrupted sp and below all frames already there; all frames of all threads are still in memory |
| TrapProtocol.ReturnPlace | src/kernelvec.S:126-138 | the frame a return reads is the one its trap saved, as the handler left it; a return to user mode re-arms sscratch with the process's own stack, empty again; a return to the kernel gives back the interrupted sp |
| TrapProtocol.FramesSurvive | src/kernelvec.S:91-138 | while a thread waits off the hart, its frames stay in memory word for word, through any steps of the others, their exits and new stacks included |
| TrapProtocol.TrapReturns | src/kernelvec.S:91-138 | over whole runs, nested traps and switches included: the return that matches a trap restores exactly the frame the trap saved, unless its own handler edited it |
| TrapProtocol.TakeTrap | src/kernelvec.S:91-118 | the entry path on the hart is a Trap step of the machine, with the registers of the interrupted code as its frame |
| TrapProtocol.LeaveTrap | src/kernelvec.S:120-138 | the exit path on the hart is a Return step of the machine |
| TrapProtocol.StartUser | src/proc.rs:338-351 | enter_user on the hart is an Enter step of the machine |
| TrapProtocol.StartChild | src/userret.S:16-58 | userret on the hart is an Enter step of the machine, with the registers of the child's frame |

## Left out

- Phys.PhysMem.MapPages: requires more of its callers than the source asserts (the six permission combinations the kernel uses, U exactly in the user gigabyte, kernel pages mapped to themselves); every caller in the kernel meets it.
- Phys.PhysMem.Translate: addresses are page numbers here; the byte offset is added back by Bits.Offset.
- AddressSpaces.LoadUserImage: assumes an image that is not empty and ends below the stack page, as the embedded programs do.
- Processes.ProcTable.Fork: running out of pages panics in the source and ends the run here; the state after that is not described. The same holds for SpawnUser, Exec and ServicePageFault. A caller that is no user process is ForkKernelThread.
- Spawning.Step: zeroing a page, filling it and writing a table entry are single steps each; the words of a page in hand are visible to nobody before it is mapped. A build, or a pid in hand, is not tied to the thread that has it, so its steps may come at any time.
- UserAccess.HeapProgram: one process runs alone; System.Watch is the same with everyone's events in between.
- System.Watch: says nothing of a process that called exec or had the kernel copy into its memory; System.System.Run describes those events as well.
- System.System.Handle: exec, fork and the page faults are single events, since traps run with interrupts off; fork called by a kernel thread is not an event, since it does not keep the invariant (Processes.ProcTable.ForkKernelThread).
- Pipes.Pipe.Run: one channel; a thread inside send or recv is preempted but does nothing else. The single semaphore of Semaphores is not put into the system.
- KernelHeap.KernelHeap.Alloc: a caller must pass a legal Layout and Dealloc a live pointer, as Rust's allocator interface demands.
- Interrupts.StepInv: a breakpoint trap taken inside the kernel is not a step; the kernel contains none outside its self-tests.
- Waiting.NeverAgain: assumes that pids do not wrap, and says nothing about whether a join ever returns, since a process may wait for itself or in a cycle.
- Sleepers.SleepTicks: counts ticks; how long a tick takes is not modelled.
- TrapProtocol.TrapPlace: assumes that kernel stacks have room for one more frame, and that kernel code writes below the frames of its own stack or outside all stacks.
- Console.Ring.OnInput: the two indices are unbounded; the source's would wrap after 2^64 bytes, where 256 divides the range.
- The 64-bit wrap of pid, tick and page counters.
- UART, PLIC, SBI calls and power control: device and firmware I/O.
- The shell, printing, boot messages and the self-tests of main.rs.
- The user programs of user.rs: user code is arbitrary loads, stores and calls.
- The RAM file system and file-descriptor bookkeeping, beyond the copy that fork makes.
- Several harts, memory ordering, TLB contents and hardware updates of the A and D bits.
- Conservation of kernel-heap bytes across exec, which leaves a buffer behind when it does not return.
- Demand paging during kernel copies: the copy routines refuse a reserved page that was never touched.
- The context switch's register saves in switch.S: a thread resumes where it left, which is all the machines here use.
