# Verified models of the problem-set programs

This Dafny project models the stateful cores of the problem sets of this repository and proves what they promise.
Nothing in it runs the original programs. `dafny verify dfyconfig.toml` checks all of it.

* **The WeensyOS kernel** (`pset3`): process table, page owners and `int8_t` reference counts, two-level page tables
  that live in physical pages, page contents, and every trap. `Machine.dfy` is the paging hardware,
  `KernelState.dfy` says what each operation does to the state, `KernelInvariant.dfy` what always holds. The numbers of
  processes and pages and the memory layout are symbolic. The proofs build up from single grants, shares and releases
  (`KernelFrames`, `KernelSteps`) over fork's loop (`KernelFork`, `KernelSyscalls`) to fork as a whole
  (`KernelForkTheorem`, `KernelOverflow`), exit and single events (`KernelTheorems`), and whole runs with
  noninterference (`KernelRuns`); `KernelService.dfy` has what a program gets from its calls, `KernelTraps.dfy` what
  each interrupt does, and `KernelContents.dfy` what a program finds in memory. `KernelBoot.dfy` and
  `KernelLoading.dfy` show that boot and the loader establish the invariant, and for which programs. `KernelScenarios.dfy`
  and `KernelPowerOn.dfy` have runs, from power-on, that lead to what the kernel does not guard against. `Kernel.dfy` is
  the kernel in its own form, a class over arrays whose methods are proved equal to the specification.
* **io61** (`pset4`): the ten-slot cached reader against the unbuffered one, for every pattern of short preads
  (`CachedFile*`, class in `IO61.dfy`), exactly when `io61_read` returns, how slots age (`CachedFileAges.dfy`), and the
  buffered writer (`WrittenFile.dfy`).
  `Stride.dfy` has the two stride drivers.
* **pong61** (`pset5`): all threads as one machine in which any thread may step next (`Pong.dfy`), its lock protocol
  (`PongLocks`), connections, counts and points (`PongShared`, `PongPath`, `PongPool`), whole runs (`PongTheorems`), the
  incremental response parser (`PongParser`), the machine with that parser on every connection (`PongNetwork`), what a
  worker does with its answer (`PongAnswers`), and runs over what a server sends into each of the three assertions that
  can fail (`PongScenarios`).
* **m61** (`pset1`): the heavy-hitter sketch with its exact error (`HeavyHitters`) and the allocation list
  (`AllocList`).

## How to read it

A specification function (`SysFork`, `Turn`, `Step`, `Drain`, `Updated`) follows the branches of the code. The class
methods keep the code's own loops and updates in place and are proved to compute that function. The theorems are about
the functions, over all states, inputs and runs.

The kernel's invariant `KernelInvariant.Inv` says: an owned page has a live owner and a count from 1 to 127 that is at
least the number of live processes that own or map it; directories and tables are private; every user-area entry is the
process's own writable page, mapped once, or a read-only page mapped at its own address, or absent; and below the user
area every process maps the kernel's memory, closed to it but for the console page.

`KernelTheorems.Allowed` is what a run may contain: any trap and any store, except `sys_page_alloc` with an address that
is not the start of a page of the user area while a page is free (`pset3/process.h:35-38` demands alignment, and the
kernel checks no more), and a fork that comes to a count of 127. `KernelRuns.StepIsGoodExactly` shows that the invariant
survives exactly these events. For a page asked for between the top of the user area and four megabytes that is no loss
of isolation: the invariant keeps that range empty because fork does not look at it.

## Where the code and its documentation differ

* `pset3/process.h:35-38` says that `sys_page_alloc` returns 0 on success; the kernel returns the physical address
  (`pset3/kernel.c:335`). The model follows the kernel.
* Reference counts are `int8_t` and a share is never given back by a process that does not own the page
  (`pset3/kernel.c:244-248`), so a program that forks often enough can push a count past 127.
  `KernelOverflow.ForkKeepsInvExactly` gives the exact condition under which fork is safe, and
  `KernelPowerOn.FirstProcessToOverflow` a run that violates it.
* For the same reason the last program cannot exit after its child has: the pages of code that it shared keep the child's
  reference, no process is left to inherit them, and the assertion at `pset3/kernel.c:250` stops the kernel.
  `KernelPowerOn.FirstProcessToHalt` is such a run.
* `pset4/slow-io61.c:91-92` returns -1 at the end of a file; `io61_read` returns 0 there. Agreement is stated on the
  bytes read.
* `io61_readc` returns a signed char (`pset4/io61.c:177-179`), so a byte 0xFF looks like EOF to the caller. Agreement is
  stated up to that conversion, with the positions telling the two apart.
* `io61_read` need not return: `CachedFileReads.SecondReadHangs` has a file and two reads, and the three
  `Terminates...` lemmas say exactly when it does.
* The comments at `pset4/io61.c:51-52` and `69-70` speak of the oldest used and the least recently used element. A slot's
  age counts the searches that have passed it over, and using it takes nothing off: `CachedFileAges.JustUsedIsEvicted`
  says exactly when the element used last is the next to go, and `CachedFileAges.JustUsedPageIsLost` is a session.
* The comment at `pset5/pong61.c:186-190` promises status -1 when a connection ends early; the code keeps a status that
  has already been parsed. `PongParser.MissingStatus` says exactly when the status is -1.
* A connection with status 200 that the server has closed is put back as reusable (`pset5/pong61.c:291-293`), and the
  assertion at `pset5/pong61.c:149` then ends the process. Two more assertions can fail, on a late end without a status
  (line 246) and on an answer that fills the buffer (line 211). `PongNetwork.FailuresOnTheWire` says exactly when,
  `PongNetwork.NoOtherFailure` that no other does, and the three lemmas of `PongScenarios` have runs.
* The stride drivers add the stride in a `size_t` (`pset4/stridecat61.c:40`). With strides near 2^64 the position falls
  back and bytes are emitted again: `Stride.WrapsEarly`.
* On a board one cell wide the ball leaves the board, although main accepts it (`pset5/pong61.c:366-368`):
  `PongPath.StaysOnTheBoard`.
* The usual error bound f - D of FREQUENT fails when a place has two slots: `HeavyHitters.TwoSlotsBreakTheBound`.
* `trackAllocByHH` clears the size tracker twice and the frequency tracker never (`pset1/m61.c:296-301`). The model
  starts both from cleared slots.

## Model

| member | source | states |
|---|---|---|
| `Machine.WordsAreNumbers` | pset3/k-hardware.c:298-308 | a page-table entry as a record of page number and flags and as a 32-bit number are the same thing: reading a word's number back gives the word |
| `Machine.NumbersAreWords` | pset3/k-hardware.c:298-308 | and every 32-bit number is the number of exactly the word that it is read as |
| `Machine.MapPageIsUpdate` | pset3/k-hardware.c:278-285 | writing one entry updates the flat map from virtual pages to (frame, permissions) at that page alone, with W and U masked by the directory entry, provided no table page is shared or aliased |
| `Machine.MapRangeIsUpdate` | pset3/k-hardware.c:269-308 | mapping any aligned range and then looking addresses up is an update of the flat map by exactly that range; every other address translates as before |
| `Machine.MapFromIsMapRange` | pset3/k-hardware.c:275-286 | holding on to the table pointer makes no difference as long as no table is the directory or shared: the loop then maps one page after the other |
| `Machine.CallIsUpdate` | pset3/k-hardware.c:269-287 | the whole call fails exactly if an argument is unaligned, a range wraps around or a page table is missing; otherwise it is such an update |
| `Machine.MapOnePage` | pset3/k-hardware.c:269-287 | the call with one page and aligned arguments writes the one entry; this is the only way in which the kernel changes user mappings |
| `Machine.LookupLow` | pset3/k-hardware.c:298-308 | below four megabytes, translation depends on directory entry 0 and one table entry only |
| `Kernel.Machinery.VirtualMemoryLookup` | pset3/k-hardware.c:298-308 | the in-place lookup computes the translation of the specification for every page of the address space |
| `Kernel.Machinery.MapPages` | pset3/k-hardware.c:275-286 | the loop, with the table pointer that it holds on to, leaves exactly the memory of the specification or fails in its assertion exactly where that does, on any memory, aliased tables included |
| `Kernel.Machinery.VirtualMemoryMap` | pset3/k-hardware.c:269-287 | the whole call, with its alignment and overflow assertions |
| `Kernel.Machinery.FreeAddress` | pset3/kernel.c:269-275 | finds the lowest page without owner, or none |
| `Kernel.Machinery.Allocate` | pset3/kernel.c:203-210 | takes that page with count 1, or fails and changes nothing |
| `Kernel.Machinery.CopyPagedir` | pset3/kernel.c:123-154 | allocates directory and table in this order, keeps a directory it got when no table is left, copies the entries below the user area and clears the others |
| `Kernel.Machinery.Scan` | pset3/kernel.c:230-235 | decides whether a process maps a page with any permission |
| `Kernel.Machinery.FindHeir` | pset3/kernel.c:225-236 | finds the lowest-numbered runnable process that maps the page |
| `Kernel.Machinery.Free` | pset3/kernel.c:213-239 | one reference less; count 0 frees the page, otherwise the heir, if any, becomes owner; fails exactly on a negative count |
| `Kernel.Machinery.FreeOwned` | pset3/kernel.c:244-248 | the loop over all pages, updating them in place, frees every page as if from the initial state |
| `Kernel.Machinery.ReleaseProcess` | pset3/kernel.c:242-254 | the state after an exit, or failure of the final assertion, as specified |
| `Kernel.Machinery.PickNext` | pset3/kernel.c:433-442 | round-robin search; spins exactly if no process is runnable |
| `Kernel.Machinery.Exit` | pset3/kernel.c:313-316 | sys_exit as specified |
| `Kernel.Machinery.PageAlloc` | pset3/kernel.c:326-337 | sys_page_alloc as specified, including failure for lack of memory and on bad addresses |
| `Kernel.Machinery.FindSlot` | pset3/kernel.c:362-367 | finds the lowest free process slot |
| `Kernel.Machinery.CopyPage` | pset3/kernel.c:398-412 | a private copy of a writable page for the child |
| `Kernel.Machinery.CopyPages` | pset3/kernel.c:391-418 | fork's loop leaves what the recursive specification leaves, wherever it stops |
| `Kernel.Machinery.Fork` | pset3/kernel.c:359-421 | sys_fork as specified, in success, in failure and in every early return |
| `Kernel.Machinery.VirtualMemoryCheck` | pset3/kernel.c:495-546 | passes exactly if all its assertions hold of the state |
| `Kernel.Machinery.Handle` | pset3/kernel.c:289-427 | the interrupt handler reaches exactly the outcome of the specification, for every state, register set and cause |
| `Kernel.Machinery.StoreWord` | pset3/k-hardware.c:298-308 | a store by the running program changes memory only through a writable user mapping |
| `KernelFrames.TablesArePrivate` | pset3/kernel.c:499-540 | directory and table of a live process are used by no one else and are not mapped for any user |
| `KernelFrames.MappedIsOwned` | pset3/kernel.c:542-545 | what a live process maps for the user is owned by some process, never free, reserved or the kernel's |
| `KernelFork.EntryKinds` | pset3/kernel.c:391-417 | every user-area entry of a live process is writable and its own, or read-only and identity-mapped, or absent |
| `KernelSteps.GrantKeepsInv` | pset3/kernel.c:326-337 | granting a free page to a process keeps the kernel invariant |
| `KernelSteps.ShareKeepsInv` | pset3/kernel.c:414-417 | sharing a read-only page keeps it while the count stays below 127 |
| `KernelSteps.CreateKeepsInv` | pset3/kernel.c:374-390 | setting up a process with a fresh directory and table keeps it |
| `KernelSteps.ReleaseKeepsInv` | pset3/kernel.c:242-254 | releasing a process's memory keeps it, hand-over included |
| `KernelSteps.StoreKeepsInv` | pset3/kernel.c:289-293 | nothing a user program writes can break it |
| `KernelFork.AllocFindsFree` | pset3/kernel.c:203-210 | allocation fails exactly when no page is free |
| `KernelFork.CopyPagedirOutcome` | pset3/kernel.c:123-154 | with no, one, or at least two free pages copy_pagedir takes nothing, one page, or succeeds with two |
| `KernelFork.ForkPageMeaning` | pset3/kernel.c:391-418 | one turn of the loop is a grant of a copy, a share, or nothing, and runs out of memory only on a writable page |
| `KernelFork.GrantMakesCopy` | pset3/kernel.c:407-411 | the child's page holds the father's bytes |
| `KernelFork.ForkPageStep` | pset3/kernel.c:391-418 | one turn keeps everything that holds of the loop so far: copies, owners, counts and free pages |
| `KernelFork.ForkPagesOutcome` | pset3/kernel.c:391-418 | the whole loop ends with all pages copied, or at a writable page with no page free |
| `KernelSyscalls.ForkedFidelity` | pset3/kernel.c:376-420 | after the loop father and child see the same bytes with the same permissions at every user page, and their registers differ in eax alone |
| `KernelSyscalls.AbortReleases` | pset3/kernel.c:401-405 | giving the child's memory back at any point of the loop succeeds, restores all owners, and leaves one more reference on each page shared before |
| `KernelSyscalls.AbortEarly` | pset3/kernel.c:382-389 | failing to get a directory or table restores the memory exactly |
| `KernelForkTheorem.ForkTheorem` | pset3/kernel.c:359-421 | fork always returns with the invariant intact unless it comes to a count that overflows. It succeeds iff there is a slot and 2 + W free pages, W being the pages that the father can write: then exactly 2 + W free pages are the child's with count 1, every other page keeps its owner, its count grows by one iff it is shared, and the child is a perfect copy. Only free pages are written to. Otherwise nothing changes owner, and each shared page below k has one more reference, k being the writable page at which memory ran out. No third process notices |
| `KernelOverflow.TurnWraps` | pset3/kernel.c:416-416 | sharing a page whose int8_t count is 127 leaves it at -128 |
| `KernelOverflow.LoopKeepsWrapped` | pset3/kernel.c:391-418 | nothing in the rest of the loop repairs such a count |
| `KernelOverflow.OverflowBreaks` | pset3/kernel.c:359-421 | a fork that comes to such a page ends in no state that satisfies the invariant |
| `KernelOverflow.ForkKeepsInvExactly` | pset3/kernel.c:359-421 | fork returns in a state that satisfies the invariant if and only if it comes to no such page: no free slot, or too little memory to get that far, or no count at 127 |
| `KernelTheorems.WritableIsIsolated` | pset3/kernel.c:407-411 | a page that a live process can write in the user area is owned by it, has count 1, and no other process or address maps it |
| `KernelTheorems.UserMappingsAreHarmless` | pset3/kernel.c:123-154 | no user mapping there points to a page directory, page table, kernel, reserved or free page |
| `KernelTheorems.AllocatedPageIsUnused` | pset3/kernel.c:269-275 | a page that is handed out is mapped and owned by no live process |
| `KernelTheorems.InvariantIsChecked` | pset3/kernel.c:495-546 | every state of the invariant passes virtual_memory_check |
| `KernelTheorems.ReleaseTheorem` | pset3/kernel.c:242-254 | exit passes its assertion iff each page it owns with count above 1 is mapped by another runnable process; then count-1 pages become free, the others drop by one and go to the lowest such process, and nothing else changes |
| `KernelTheorems.ScheduleIsGood` | pset3/kernel.c:433-442 | scheduling resumes a runnable process, and spins only if there is none |
| `KernelTheorems.PageAllocIsGood` | pset3/kernel.c:326-337 | sys_page_alloc at the start of a user-area page, or with no page free, keeps the invariant |
| `KernelTheorems.UnsafePageAlloc` | pset3/kernel.c:326-337 | at any other address it stops the kernel in an assertion or leaves a state that breaks the invariant |
| `KernelTheorems.PageAllocKeepsInvExactly` | pset3/kernel.c:326-337 | so sys_page_alloc returns in a state that satisfies the invariant if and only if the address is one of those or no page is free |
| `KernelTheorems.DispatchIsGood` | pset3/kernel.c:308-426 | every cause of an interrupt leads to a good state, or stops the kernel exactly in the listed cases |
| `KernelRuns.StepIsGood` | pset3/kernel.c:289-427 | the same for the handler as a whole, its check included, and for user stores |
| `KernelRuns.StepIsGoodExactly` | pset3/kernel.c:289-427 | where the kernel does not stop on purpose, an event leads to a good state if and only if it is allowed: no unsafe page address, no count that overflows |
| `KernelRuns.RunIsGood` | pset3/kernel.c:289-442 | whole-run safety: any sequence of allowed events from a good state reaches only good states, or stops exactly at the first listed event |
| `KernelRuns.StoreUntouched` | pset3/kernel.c:407-411 | a store by one process is never seen by another |
| `KernelRuns.StepUntouched` | pset3/kernel.c:289-427 | one event leaves the registers and memory view of every live process other than the current one as they were |
| `KernelRuns.RunUntouched` | pset3/kernel.c:289-442 | noninterference: over a whole run, a process that does not run notices nothing |
| `KernelRuns.BrokenForEver` | pset3/kernel.c:343-357 | a process stopped for a page fault never runs again, and its registers and memory stay as they were for ever |
| `KernelTraps.TrapTheorem` | pset3/kernel.c:289-424 | what each interrupt leads to, from any good state: registers saved; getpid answers the process's number; yield and timer give the nearest runnable process its turn and change nothing else; a user's page fault breaks the process first; exit releases its memory; page allocation and fork as in their own theorems; panic, kernel fault and unknown causes halt |
| `KernelTraps.FaultEndsProcess` | pset3/kernel.c:343-357 | a process that faults never gets the processor again in any run from there, and its registers and memory stay as they were at the fault |
| `KernelTraps.RunLeavesUnowned` | pset3/kernel.c:289-424 | no run changes owner, count or, the console aside, content of a page that belongs to no process |
| `KernelTraps.StoreToConsole` | pset3/kernel.c:101-108 | the console page takes what any program stores there, and nothing else changes |
| `KernelTraps.CheckRejects` | pset3/kernel.c:495-548 | what virtual_memory_check rejects, in any state: whenever an interrupt does not halt, each directory and table page is its process's alone with count 1, the kernel's are the kernel's and counted, process 0 is free, and owned pages have live owners |
| `KernelService.StoreIsSeen` | pset3/kernel.c:407-411 | a store changes that word of the process's own view and nothing else that it sees |
| `KernelService.StoreIsRefused` | pset3/k-hardware.c:298-308 | a store without write permission changes nothing |
| `KernelService.PageAllocAnswers` | pset3/kernel.c:326-337 | sys_page_alloc fails without effect exactly when no page is free; otherwise the process owns the lowest free page with one reference, can write it at the place it asked for, has its address in eax, and nothing else changes |
| `KernelService.NextRunnableIsNearest` | pset3/kernel.c:433-442 | the scheduler's choice is the nearest runnable process in cyclic order |
| `KernelService.TurnComes` | pset3/kernel.c:429-442 | no starvation: in any run of allowed events in which a runnable process does not get to run, the kernel chooses a process at most as often as that one is away from the current one in cyclic order, hence at most NPROC times |
| `KernelBoot.KernelMemoryOk` | pset3/kernel.c:101-108 | the kernel's table after boot maps memory identically, open to users only at the console page |
| `KernelBoot.BootIsGood` | pset3/kernel.c:473-490 | after initialisation every page of the kernel's image and its stack is the kernel's, page 0 and the device range are reserved, each with count 1, all other pages are free with count 0, no process is in use, and the invariant holds |
| `KernelBoot.ProcessSetupIsGood` | pset3/kernel.c:161-180 | loading a program into the user area - segments allocated, filled, and remapped read-only, stack granted - keeps the invariant whenever it gets through, so that any number of programs can be loaded |
| `KernelLoading.LoadAll` | pset3/k-loader.c:53-57 | loading gets through exactly if the segments' pages are free and apart; then those pages and no others are taken, and each is open to the process |
| `KernelLoading.ProcessSetupExactly` | pset3/kernel.c:161-180 | process_setup gets through exactly if the program fits: two lowest free pages for its tables, all segments' pages free and apart, one page left for the stack. It leaves a good state if and only if all of the program is linked to the user area |
| `KernelContents.SegmentLoaded` | pset3/k-loader.c:71-94 | a segment's pages, and no others, become the process's with count 1, hold the content of the image, and are mapped at their own addresses with the segment's access |
| `KernelContents.ProgramInPlace` | pset3/kernel.c:161-180 | after process_setup every page of every segment is in place, there is a private writable stack page at the top and nothing else in the user area, the process has its registers and is runnable, and all pages that were in use before keep owner, count and content |
| `KernelContents.ProgramIsSeen` | pset3/k-loader.c:84-92 | what the process reads at the addresses of its program is the content of the image, writable exactly if the segment is |
| `KernelContents.SetupLeavesKernel` | pset3/kernel.c:189-200 | loading takes no page away from the kernel |
| `KernelContents.RunLeavesKernel` | pset3/kernel.c:289-424 | however long programs run, the kernel keeps its image, its stack and the reserved pages, and its image and stack keep their contents |
| `KernelContents.KernelIsNeverMapped` | pset3/kernel.c:480-484 | in no run does an address of the user area lead a process to one of these pages |
| `KernelPowerOn.PowerOnBoots` | pset3/kernel.c:88-108 | the boot code, whatever memory holds at first, leads to a booted state: invariant, no process, kernel and reserved pages taken, all others free |
| `KernelPowerOn.FirstProcessIsGood` | pset3/kernel.c:161-180 | so good states exist: with three slots and seven pages, setting up a program of one read-only page leads to one, in which the process can fork and shares that page |
| `KernelPowerOn.FirstProcessToOverflow` | pset3/kernel.c:359-421 | from that state a run of allowed events leads to a good state in which fork comes to a count of 127 |
| `KernelPowerOn.FirstProcessToHalt` | pset3/kernel.c:242-254 | from that state fork, yield, the child's exit and the father's exit stop the kernel |
| `KernelScenarios.FailingForksOverflow` | pset3/kernel.c:391-421 | with a slot and two free pages but too little memory to finish, each fork adds one reference to every shared page that it comes to: at most 127 less the count of such a page, and exactly so many if it has the highest count, lead to a good state in which fork overflows |
| `KernelScenarios.AnyShareOverflows` | pset3/kernel.c:326-421 | any process with a shared page that fork comes to, and a writable page above it, can get there by allowed system calls of its own |
| `KernelScenarios.OverflowEnds` | pset3/kernel.c:359-421 | from such a state fork stops the kernel or leaves a state outside the invariant |
| `KernelScenarios.GetsIsRun` | pset3/kernel.c:289-442 | what these runs are: allowed all along, and ending in that state |
| `KernelScenarios.ChildsShareIsNeverGivenBack` | pset3/kernel.c:242-254 | a process that runs alone, owns a shared page and can fork: after fork, yield and the child's exit, its own exit finds no heir for the page, since the child's reference was never given back, and the kernel stops |
| `KernelBoot.ProtectKeepsInv` | pset3/k-loader.c:87-90 | remapping a page of code read-only at its own address keeps the invariant |
| `KernelBoot.LoadSegmentsStays` | pset3/k-loader.c:53-57 | loading any list of segments of the user area keeps what holds while loading |
| `CachedFile.SlowReadIsSlice` | pset4/slow-io61.c:82-95 | the unbuffered reader's byte-by-byte loop returns the slice of the file at its position, short only at the end |
| `CachedFileProofs.BuildOk` | pset4/io61.c:71-98 | a slot is built exactly when there is something to read; it then starts at the position asked for, and the reader stands there |
| `CachedFileProofs.GetOk` | pset4/io61.c:103-118 | a search changes lifetimes only, as CachedFileAges.SearchAges says, and ends at a slot that covers the position |
| `CachedFileProofs.PrepareOk` | pset4/io61.c:167-188 | preparing succeeds exactly before the end of the file, without moving the reader |
| `CachedFileProofs.ReadcAgrees` | pset4/io61.c:167-188 | io61_readc returns the unbuffered reader's byte as a signed char, or EOF with it, and moves on as far |
| `CachedFileProofs.SeekTheorem` | pset4/io61.c:322-347 | io61_seek puts the reader at any position, at or past the end too; it goes wrong exactly when there is no current slot and nothing at the position |
| `CachedFileProofs.TurnCopies` | pset4/io61.c:254-265 | a turn of io61_read's loop, which never refreshes its slot pointer, keeps the bytes copied equal to the file's |
| `CachedFileReads.ReadAgrees` | pset4/io61.c:241-275 | whenever io61_read returns it has read exactly what the unbuffered reader reads, under any evictions and short preads |
| `CachedFileReads.NothingToRead` | pset4/io61.c:243-247 | it returns 0 only at the end of the file |
| `CachedFileReads.VictimIs` | pset4/io61.c:53-66 | a slot is evicted exactly when no slot is empty and none is older, or as old with a lower number |
| `CachedFileReads.TurnShrinks` | pset4/io61.c:254-265 | copying from slot 0, every turn decreases a measure over bytes left and slots ahead of it |
| `CachedFileReads.TerminatesFromFirstSlot` | pset4/io61.c:241-275 | so io61_read from slot 0 returns for every size |
| `CachedFileReads.TerminatesUnaged` | pset4/io61.c:241-275 | from another slot that has not aged it returns if and only if the read fits into that slot or the file ends with it |
| `CachedFileReads.IsRefilled` | pset4/io61.c:254-265 | a used-up slot that can be evicted is refilled, for the position where it ended, by the pread after those for the slots ahead of it |
| `CachedFileReads.TerminatesAged` | pset4/io61.c:241-275 | from another slot that has aged, it returns if and only if the read needs no more than what the slot still holds and that one pread yields, or the file ends with it |
| `CachedFileReads.TerminatesAgedFullPages` | pset4/io61.c:241-275 | when pread returns all it can, that is one more page, so that a caller can tell before the call |
| `CachedFileReads.OneByteSessions` | pset4/io61.c:241-275 | sessions of single characters, block reads of at most one byte and seeks to any positions, beyond the end of the file too, get through with the unbuffered reader's answers whenever there is a current slot; from a fresh reader if and only if it finds something before it seeks out of the file |
| `CachedFileReads.StuckForEver` | pset4/io61.c:254-265 | a used-up slot other than slot 0 that has not aged is never refilled |
| `CachedFileReads.SecondReadHangs` | pset4/io61.c:248-265 | concretely: on a file of more than two pages, a read of one page followed by a read of a page and a byte never returns |
| `CachedFileReads.SessionAgrees` | pset4/io61.c:322-347 | for any sequence of seeks, characters and blocks whose calls all return, all answers and the final position are the unbuffered reader's |
| `CachedFileAges.SearchAges` | pset4/io61.c:103-118 | a search makes the first slot that covers the position current and every other slot exactly one older, empty ones included; nothing else changes |
| `CachedFileAges.SeekAges` | pset4/io61.c:322-340 | a seek into a slot reads nothing, and ages all other slots by one |
| `CachedFileAges.SeekFills` | pset4/io61.c:322-340 | a seek to an uncached position ages all slots and fills the victim among them by one pread; the others stay |
| `CachedFileAges.SeekPastEnd` | pset4/io61.c:322-340 | a seek past the end of the file empties the victim's slot |
| `CachedFileAges.JustUsedIsEvicted` | pset4/io61.c:53-67 | the slot used last is the next to be evicted if and only if it was older than all others by more than one search, so that the eviction is not by last use |
| `CachedFileAges.JustUsedPageIsLost` | pset4/io61.c:53-67 | twelve seeks after which the page used last is lost while nine that were not used again are still there |
| `CachedFileAges.SeeksUnblockTheRead` | pset4/io61.c:103-118 | the two reads of SecondReadHangs with seeks to the start and back in between: the ageing lets the second one return, with the unbuffered answers |
| `CachedFileAges.ReadsFromSlot` | pset4/io61.c:167-190 | while the current slot has bytes left, a character is read from it and nothing else changes |
| `CachedFileAges.ReadsNextSlot` | pset4/io61.c:167-190 | otherwise one pread at the reader's position fills the victim |
| `CachedFileAges.BackwardsByPages` | pset4/io61.c:326-332 | reading backwards, a step out of what is cached costs one pread, after which a page of further steps is cached |
| `IO61.ReadFile.FreeCache` | pset4/io61.c:53-66 | the loop picks the specified slot |
| `IO61.ReadFile.BuildCacheForPos` | pset4/io61.c:71-98 | fills it in place |
| `IO61.ReadFile.GetCacheForPos` | pset4/io61.c:103-118 | ages the slots in place and finds the first that covers the position |
| `IO61.ReadFile.ReadChar` | pset4/io61.c:167-188 | returns what the unbuffered reader returns |
| `IO61.ReadFile.SeekPosition` | pset4/io61.c:322-347 | stands at the position afterwards |
| `IO61.ReadFile.ReadTurn` | pset4/io61.c:254-265 | one turn, copying into the caller's buffer |
| `IO61.ReadFile.ReadBlock` | pset4/io61.c:241-275 | the function itself, with its own loop, for every call that returns: the buffer then holds what the unbuffered reader reads, and the reader stands where that one stands |
| `IO61.ReadFile.ReadFromFirstSlot` | pset4/io61.c:241-275 | from slot 0 it does so for every size |
| `WrittenFile.WritesCompose` | pset4/slow-io61.c:103-114 | two writes in a row are one write of the joined data, holes and overwriting included |
| `WrittenFile.ByteWritten` | pset4/slow-io61.c:57-64 | each byte of a written file comes from the data, from the old content, or is a zero in a hole |
| `WrittenFile.SlowWriteIsBlock` | pset4/slow-io61.c:103-114 | the unbuffered byte-by-byte write is one kernel write |
| `IO61Writes.WriteFile.Flush` | pset4/io61.c:221-232 | afterwards the file is what the unbuffered writer has, and nothing is pending; what was pending has gone out in one kernel write |
| `IO61Writes.WriteFile.PutChar` | pset4/io61.c:195-215 | file and pending bytes together are the unbuffered run's file, and the kernel is called for a full buffer at most |
| `IO61Writes.WriteFile.PutBlock` | pset4/io61.c:283-315 | the same for blocks of any size; every kernel write on the way carries a full buffer |
| `IO61Writes.WriteFile.SeekPosition` | pset4/io61.c:322-347 | a seek flushes and moves the file position |
| `IO61Writes.WriteFile.Session` | pset4/io61.c:195-325 | any mix of writes and seeks leaves the unbuffered run's file after the final flush |
| `Stride.RemainderIsModulo` | pset4/stridecat61.c:40-45 | the size_t arithmetic of the model is arithmetic modulo 2^64 |
| `Stride.StrideCat` | pset4/stridecat61.c:32-47 | the loop writes the bytes at the positions of the specification, in which every addition and subtraction wraps around as a size_t |
| `Stride.OStrideCat` | pset4/ostridecat61.c:36-56 | the loop leaves the file of the specification, with the same arithmetic, an amount below zero included |
| `Stride.EmitsTheRest` | pset4/stridecat61.c:32-47 | from any column on, when the blocks tile the file, the positions emitted are distinct and exactly those not yet covered |
| `Stride.EmitsEachOnce` | pset4/stridecat61.c:32-47 | every byte is emitted exactly once if and only if one block holds the whole file, or the block is no longer than the stride and no column from whose top pos += stride wraps around is followed by another one |
| `Stride.WrapsEarly` | pset4/stridecat61.c:40-45 | when such a column is followed by another one, the position falls back into the first block |
| `Stride.TilesBelow` | pset4/stridecat61.c:40-45 | block <= stride and size + stride <= 2^64 are enough |
| `Stride.StrideRoundTrip` | pset4/ostridecat61.c:36-56 | ostridecat61 applied to stridecat61's output rebuilds the file, over every older content of the output, whenever each byte is emitted once; only what lay behind the file's end remains |
| `Stride.RoundTripExactly` | pset4/ostridecat61.c:36-56 | where stridecat61 emits no more bytes than the file has, the file is rebuilt over every older content if and only if the blocks tile it or it fits into one block |
| `PongPath.MovesTraceTheWave` | pset5/pong61.c:428-444 | k moves along an axis of at least two cells lead to the k-th point of a triangle wave, inside the axis |
| `PongPath.StaysOnTheBoard` | pset5/pong61.c:431-440 | the point stays inside for ever if and only if the axis has at least two cells; on one cell the first move leads to -1 |
| `PongPath.CoordInfo.Move` | pset5/pong61.c:431-440 | the in-place move is one step of the specification on both axes |
| `PongPool.TakeKeepsPool` | pset5/pong61.c:302-325 | whatever address the allocator returns, taking a connection leaves every other slot alone and no lower slot with the same pointer; a new one is opened only if none can be reused |
| `PongPool.GiveKeepsPool` | pset5/pong61.c:288-299 | giving one back touches its own slot alone and frees the object exactly when the status is not 200 |
| `PongPool.SlotIsFound` | pset5/pong61.c:264-273 | a live connection is found in its own slot, whatever stale pointers other slots carry |
| `PongPool.SharedConnections.SlotOfConnection` | pset5/pong61.c:264-273 | the loop returns the first slot with the pointer, or -1 |
| `PongPool.SharedConnections.ConnectionSlotWithStatus` | pset5/pong61.c:276-285 | the loop returns the first slot with the status, or -1 |
| `PongPool.SharedConnections.GetConn` | pset5/pong61.c:302-325 | the in-place operation is the specified one |
| `PongPool.SharedConnections.ReleaseConn` | pset5/pong61.c:288-299 | the in-place operation is the specified one |
| `PongLocks.WorkerKeepsLocks` | pset5/pong61.c:418-484 | each mutex is held by exactly the worker whose place in the program says so, after every step of any worker |
| `PongLocks.MainKeepsLocks` | pset5/pong61.c:397-414 | and after every step of the spawning loop |
| `PongLocks.UnlocksOwnMutexes` | pset5/pong61.c:204-245 | no thread unlocks a mutex that it does not hold |
| `PongLocks.FinishedHoldsNothing` | pset5/pong61.c:418-484 | a finished worker took and released serverLock exactly once and released sendLock as often as it took it |
| `PongLocks.NoDeadlock` | pset5/pong61.c:418-484 | a waiting thread is at most two waits away from a thread that can go on |
| `PongLocks.SilenceWhileWaiting` | pset5/pong61.c:225-233 | no request is sent while a worker sleeps on "+wait" |
| `PongLocks.SlowAnswersFreeLocks` | pset5/pong61.c:204-212 | a worker that has looked at its answer twice and reads on outside the headers holds no mutex while it reads |
| `PongShared.ConnectionsArePrivate` | pset5/pong61.c:302-325 | no connection is held by two workers |
| `PongShared.SlotOfOwnConnection` | pset5/pong61.c:264-273 | slotOfConnection finds the slot from which the worker took its connection |
| `PongShared.WorkerKeepsConnections` | pset5/pong61.c:288-325 | every step of a worker keeps slots, owners and connection objects consistent |
| `PongShared.WorkerKeepsCount` | pset5/pong61.c:478-480 | nthreads keeps pace with the workers that have not finished |
| `PongShared.MainKeepsCount` | pset5/pong61.c:397-414 | and no more than MAXTHREADS of them exist, although the count is raised after the thread is created |
| `PongShared.PoolNeverFull` | pset5/pong61.c:320-323 | the assertion on a full pool is unreachable |
| `PongShared.WorkerKeepsPath` | pset5/pong61.c:428-463 | the holder of serverLock has the current point of the path and sends it before the next point is taken |
| `PongTheorems.InitialIsGood` | pset5/pong61.c:377-396 | the initial state satisfies the invariant |
| `PongTheorems.StepIsGood` | pset5/pong61.c:397-484 | every step of every thread, under every network, allocator and scheduler behaviour, keeps the invariant or ends the process |
| `PongTheorems.FailuresExactly` | pset5/pong61.c:148-149 | the assertion of http_send_request fails exactly on a reused connection that the server had closed, those of http_receive_response exactly when an unfinished answer leaves no room in the buffer (line 211) and on a late answer without a status (line 246), and nothing else fails |
| `PongTheorems.PlayIsGood` | pset5/pong61.c:397-484 | the same for whole runs over all interleavings |
| `PongTheorems.EveryRunPlaysThePath` | pset5/pong61.c:428-463 | on a board of at least two by two, the n-th request of any run is a point of the reflecting path, on the board, for the same ticket as the request before it or the next one |
| `PongTheorems.EveryPointIsSent` | pset5/pong61.c:428-463 | no point up to the last one sent has been skipped |
| `PongParser.DrainAppend` | pset5/pong61.c:563-587 | taking in the lines that are there makes no difference to what later bytes mean |
| `PongParser.ChunksDoNotMatter` | pset5/pong61.c:191-221 | however a stream is cut into reads, interrupted ones included, the loop ends as one pass over the whole stream does |
| `PongParser.TwoChunkings` | pset5/pong61.c:191-221 | two ways to cut a stream give the same state, status, length and first content_length bytes of the body |
| `PongParser.NoOverflow` | pset5/pong61.c:209-213 | the buffer assertion cannot fail on a stream shorter than its bound |
| `PongParser.HeadOfResponse` | pset5/pong61.c:563-587 | a stream with status line, headers and empty line is parsed into status, last Content-Length and body |
| `PongParser.ResponseOfHead` | pset5/pong61.c:563-587 | and only such a stream leads to the body |
| `PongParser.CompletionFollowsTheStandard` | pset5/pong61.c:589-595 | a response is complete exactly when Content-Length bytes are there or, at the close of the connection, when no more is missing (sections 6, 6.1 and 7.2.2 of RFC 1945) |
| `PongParser.MissingStatus` | pset5/pong61.c:186-190 | the status is -1 exactly when no good status line came through (or it says -1 itself), not whenever the connection ended early as the comment says |
| `PongParser.BrokenWithStatus` | pset5/pong61.c:186-190 | the counterexample: an end right after a good status line is broken with status 200 |
| `PongParser.HttpConnection.RemoveLine` | pset5/pong61.c:567-584 | a line is taken in and the buffer shifted in place |
| `PongParser.HttpConnection.ConsumeHeaders` | pset5/pong61.c:563-596 | the scanning loop over the buffer is the specified parser |
| `PongParser.HttpConnection.ReceiveResponse` | pset5/pong61.c:191-221 | the receiving loop ends as specified, for every sequence of reads |
| `PongNetwork.LookIsOnePass` | pset5/pong61.c:199 | a look at what is left of the buffer gives what one pass over all that has arrived gives, whatever earlier looks have taken out |
| `PongNetwork.WireStepIsGood` | pset5/pong61.c:191-221 | every step of every thread over every network keeps state and status of each connection object equal to what one pass over the bytes received since its request gives, and its buffer below 50 * BUFSIZ |
| `PongNetwork.AnswersFollowTheStream` | pset5/pong61.c:191-246 | what a worker judges and reports is what the standard says of all the bytes its connection has received since the request: complete by length or at the close, and -1 exactly if no status came |
| `PongNetwork.FailuresOnTheWire` | pset5/pong61.c:148-246 | in terms of what the server has sent: the first assertion fails exactly on a connection whose last answer ended with the stream, the second exactly when 49 * BUFSIZ bytes of an unfinished answer are left (so at least as many have arrived), the third exactly on a late end without a status; no other can |
| `PongNetwork.TraceIsPlayed` | pset5/pong61.c:397-484 | a run over a network is a run of the machine, whatever comes after it, so that what holds of all runs of the machine holds of it |
| `PongNetwork.NoOtherFailure` | pset5/pong61.c:397-484 | no run from the start of the program, over any network, ends in an assertion but those three |
| `PongNetwork.NetworkPlaysThePath` | pset5/pong61.c:428-463 | every request of a run over any network is the point of the reflecting path for its ticket |
| `PongAnswers.SendTheorem` | pset5/pong61.c:176-181 | a request starts a new exchange: nothing received, no look made, both locks held |
| `PongAnswers.LookTheorem` | pset5/pong61.c:199-233 | what a look does, in terms of all bytes received: an unfinished answer is read on, and outside its headers the second look gives the locks up first; a finished one is judged, unless its body asks to wait, when the worker sleeps with sendLock, taken again if need be |
| `PongAnswers.FetchTheorem` | pset5/pong61.c:211-221 | a read adds exactly what it brings, and only an empty one ends the stream |
| `PongAnswers.JudgeTheorem` | pset5/pong61.c:235-246 | status 500 and above exits; no status means backing off with the locks held; otherwise the locks still held are given up and the worker reports |
| `PongAnswers.ExitsExactly` | pset5/pong61.c:148-484 | the process exits exactly when a connect, write or read fails, a status is 500 or more, or a reported body is a negative number |
| `PongAnswers.WaitIsObeyed` | pset5/pong61.c:225-233 | over runs: between an answer that asks to wait and its judgement the worker sleeps holding sendLock, and nobody sends while it sleeps |
| `PongAnswers.AsksAgain` | pset5/pong61.c:449-463 | over runs: after an answer without status, with the locks kept, the worker asks for the same point again before anything else |
| `PongAnswers.EveryPointIsAnswered` | pset5/pong61.c:449-484 | over runs from the start: a worker that is done has reported an answer with a status to the point that it took |
| `PongScenarios.BadStateHappens` | pset5/pong61.c:148-149 | a run from the start of the program: the server sends a status line with 200 and closes, the first worker reports it and puts the connection back, and the second one takes it and fails that assertion |
| `PongScenarios.BufferFullHappens` | pset5/pong61.c:209-212 | a run in which the server sends 49 * BUFSIZ bytes without the end of a line, and the buffer's assertion fails |
| `PongScenarios.LateErrorHappens` | pset5/pong61.c:244-246 | a run in which two looks find nothing, the first worker gives up its locks, the server closes, and the last assertion fails |
| `HeavyHitters.UpdateCounters` | pset1/m61.c:308-335 | both loops and the recursive call, in place, are the specified update; the recursion goes one level deep at most |
| `HeavyHitters.CutEmptiesASlot` | pset1/m61.c:333-334 | before a recursive call some slot has become empty, so the call ends in its first loop |
| `HeavyHitters.UpdateTotal` | pset1/m61.c:308-335 | an update adds its weight to the counters, less (k + 1) times its cut |
| `HeavyHitters.UpdateHeld` | pset1/m61.c:308-335 | what a place loses in an update is one cut for each slot that carries it and one if it misses itself, exactly |
| `HeavyHitters.RunIsBalanced` | pset1/m61.c:308-335 | N = sum of the counters + (k + 1) * D after every run of updates and reports |
| `HeavyHitters.ExactHoldings` | pset1/m61.c:308-335 | over a run, counters of a place = its weight - all that it lost |
| `HeavyHitters.ErrorBounds` | pset1/m61.c:308-335 | the counters of a place never exceed its weight f and hold at least f - k * D; they hold f - D, more the cuts made while others miss and it has no slot, less (slots - 1) times each cut that hits it; so at least f - D if and only if the latter sum is no larger, as when it never has two slots |
| `HeavyHitters.TwoSlotsBreakTheBound` | pset1/m61.c:312-325 | the counterexample: six updates after which a place with two slots holds less than f - D |
| `HeavyHitters.ReportedCount` | pset1/m61.c:286-290 | the count printed for a slot is counter + D, too large by at most D, and never too small for a place that never has two slots |
| `HeavyHitters.CountersFit` | pset1/m61.c:316-323 | no counter wraps around while the total fits 64 bits |
| `HeavyHitters.SortHitTracker` | pset1/m61.c:339-354 | the bubble sort terminates with the slots in descending order, a permutation of what they were |
| `HeavyHitters.SumOfPermuted` | pset1/m61.c:339-354 | so that a report changes no sum |
| `AllocList.Allocator.Malloc` | pset1/m61.c:82-121 | a new block joins the chain as its newest, all statistics move with it; a failed call only counts as failed |
| `AllocList.Allocator.Unlink` | pset1/m61.c:174-201 | a block leaves the chain from any place and its neighbours are linked to each other |
| `AllocList.Allocator.Free` | pset1/m61.c:123-202 | the chain holds exactly the other live blocks, and active and total counters agree with it |
| `AllocList.Allocator.CountAllocation` | pset1/m61.c:107-110 | the 64-bit counters are the true numbers modulo 2^64 |
| `AllocList.SizeWithout` | pset1/m61.c:162-164 | sizes add up when a block is removed |
| `AllocList.Allocator.LeakTraverse` | pset1/m61.c:255-261 | the recursion visits the blocks from its argument back to the oldest |
| `AllocList.Allocator.PrintLeakReport` | pset1/m61.c:263-267 | the report lists the live blocks newest first |
| `AllocList.ReversedAt` | pset1/m61.c:255-261 | each of them once, at its mirrored place |

## Left out

- KernelRuns.RunIsGood: runs contain only allowed events; KernelRuns.StepIsGoodExactly says that any other event stops the kernel or breaks the invariant, and what such a broken kernel does next is not pursued.
- KernelLoading.ProcessSetupExactly: process_setup's write through the unset `current` (pset3/kernel.c:163) is left out, the process counts as runnable while it is loaded, and where there is no page for its tables the model ends instead of going on without the process.
- KernelContents.ProgramInPlace: contents are given page by page; where in its first page a segment starts, and the entry point and stack pointer among the registers, are parameters.
- KernelTheorems.UserMappingsAreHarmless: speaks of the user area; the console page below it stays open to users on purpose.
- CachedFileReads.ReadAgrees: speaks of seekable files that do not change; on pipes the sequential read of pset4/io61.c:76-79 can lose data.
- IO61.ReadFile.ReadBlock: covers the calls that return; those that do not are the matter of CachedFileReads.
- IO61Writes.WriteFile.Session: kernel writes are complete, as the code assumes; errors and short writes are ignored there.
- Stride.StrideRoundTrip: the drivers read and write through the unbuffered library, to which the io61 theorems reduce the cached one whenever its calls return, as they do with the default block size of one byte (CachedFileReads.OneByteSessions).
- Stride.RoundTripExactly: output longer than the file, in which some bytes occur twice, can be put together again as well; when that succeeds is not pursued.
- Stride.OStrideCat: the length of the driver's buffer is not part of the model, nor are positions beyond the range of off_t, which only files of more than 2^62 bytes lead to.
- PongTheorems.PlayIsGood: the parser's results are arbitrary inputs of this machine; PongNetwork ties them to what has arrived.
- PongNetwork.WireStepIsGood: writing a request is one step, which fails or sends all of it; whether a body asks to wait or is a negative number is an arbitrary function of the body.
- PongScenarios.BadStateHappens: the status line comes in one read; the empty body neither asks to wait nor is negative.
- PongParser.CompletionFollowsTheStandard: sscanf and strtoul are arbitrary functions of a line.
- PongParser.HttpConnection.ReceiveResponse: the reads that will arrive are a parameter.
- HeavyHitters.ErrorBounds: the total weight fits 64 bits and the tracker starts cleared.
- AllocList.Allocator.Free: pointers are live blocks or null.
- Contents of freshly granted pages: the kernel does not clear them, and the model keeps their old contents.
- Keyboard, console, memory display, interrupt controller, segments and assembly of pset3, and the register file beyond eax and an opaque rest.
- ELF parsing: segments are given as page ranges with a flag.
- The result of lseek, malloc failures inside io61, and io61_close.
- Sockets, DNS, sleeping times and back-off, printing, and the "reset" request of pong61's main, which runs before the mutexes exist.
- Detection of wild, double and interior frees, realloc and calloc in m61.
- The allocator behind m61_malloc and http_connect: whether it succeeds, and with which address, is an input.
- pset2, the stdio wrapper, simple drivers, tests and scripts.
