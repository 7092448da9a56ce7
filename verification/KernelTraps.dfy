/** What each interrupt does to the running process and to the machine, told from the outside. */
module KernelTraps {
  import opened Wrappers
  import opened Machine
  import opened KernelState
  import opened KernelInvariant
  import opened KernelFrames
  import opened KernelSteps
  import opened KernelFork
  import opened KernelSyscalls
  import opened KernelForkTheorem
  import opened KernelTheorems
  import opened KernelRuns
  import opened KernelService

  /** The processor gives the nearest runnable process its turn; it spins exactly if there is none. */
  ghost predicate Rescheduled(s: State, o: Outcome)
    requires WellFormed(s)
  {
    match o
    case Running(s') =>
      && s'.current < L.nproc && s' == s.(current := s'.current) && s.procs[s'.current].state == P_RUNNABLE
      && (forall q :: 0 <= q < L.nproc && s.procs[q].state == P_RUNNABLE ==>
            Distance(s.current, s'.current) <= Distance(s.current, q))
    case Spinning(s') => s' == s && (forall q :: 0 <= q < L.nproc ==> s.procs[q].state != P_RUNNABLE)
    case Halted => false
  }

  /** Process q has been interrupted with these registers. */
  function Interrupted(s: State, q: nat, registers: Registers): State
    requires q < |s.procs|
  {
    s.(procs := s.procs[q := s.procs[q].(registers := registers)])
  }

  /** And it has been stopped for good. */
  function Faulted(s: State, q: nat, registers: Registers): State
    requires q < |s.procs|
  {
    s.(procs := s.procs[q := s.procs[q].(registers := registers, state := P_BROKEN)])
  }

  /** The kernel's answer to a page allocation. */
  ghost predicate PageAnswered(s: State, s': State, va: nat)
    requires WellFormed(s) && WellFormed(s')
  {
    var q := s.current;
    if FreePages(s) == {} then s' == Interrupted(s, q, s.procs[q].registers.(eax := MINUS_ONE))
    else UserPage(va / 4096) && exists g :: PageArrives(s, s', va / 4096, g)
  }

  /** What a trap leads to; s is the state in which the running process's registers have been saved. */
  ghost predicate Answered(s: State, cause: Cause, o: Outcome)
    requires WellFormed(s)
  {
    var q, r := s.current, s.procs[s.current].registers;
    match cause
    case SyscallGetpid => o == Running(Interrupted(s, q, r.(eax := q)))
    case SyscallYield => Rescheduled(s, o)
    case Timer => Rescheduled(s, o)
    case PageFault(user) => if user then Rescheduled(Faulted(s, q, r), o) else o == Halted
    case SyscallExit =>
      if Stops(s, Trap(r, SyscallExit)) then o == Halted else
      exists s1 :: WellFormed(s1) && Released(s, q, s1) && Rescheduled(s1, o)
    case SyscallPageAlloc => o.Running? && WellFormed(o.s) && PageAnswered(s, o.s, r.eax)
    case SyscallFork => o.Running? && exists k :: ForkedExactly(s, o.s, k)
    case SyscallPanic => o == Halted
    case Unexpected => o == Halted
  }

  lemma ScheduleReschedules(s: State)
    requires Inv(s)
    ensures Rescheduled(s, Schedule(s))
  {
    ScheduleIsGood(s);
    forall q | 0 <= q < L.nproc && s.procs[q].state == P_RUNNABLE
      ensures Schedule(s).Running? && Distance(s.current, Schedule(s).s.current) <= Distance(s.current, q)
    {
      NextRunnableIsNearest(s, s.current, L.nproc, q);
    }
  }

  lemma ExitAnswers(s: State)
    requires Good(s)
    ensures Answered(s, SyscallExit, SysExit(s))
  {
    var q := s.current;
    ReleaseTheorem(s, q);
    if Release(s, q).Some? {
      var s1 := Release(s, q).value;
      ReleaseKeepsInv(s, q);
      ScheduleReschedules(s1);
      assert Released(s, q, s1) && Rescheduled(s1, SysExit(s));
    }
  }

  lemma PageAllocIsAnswered(s: State)
    requires Good(s) && PageAllocIsSafe(s, s.procs[s.current].registers.eax)
    ensures Answered(s, SyscallPageAlloc, SysPageAlloc(s))
  {
    PageAllocIsGood(s);
    if FreePages(s) == {} {
      InvFreeUncounted(s);
      AllocFindsFree(s);
    } else {
      PageAllocAnswers(s, s.procs[s.current].registers.eax, SysPageAlloc(s).s);
    }
  }

  lemma ForkIsAnswered(s: State)
    requires Good(s) && !ForkOverflows(s)
    ensures Answered(s, SyscallFork, SysFork(s))
  {
    var s', k := ForkTheorem(s);
    assert ForkedExactly(s, s', k);
  }

  lemma FaultIsAnswered(s: State)
    requires Good(s)
    ensures Answered(s, PageFault(true), Dispatch(s, PageFault(true)))
  {
    var s1 := SetState(s, s.current, P_BROKEN);
    assert s1 == Faulted(s, s.current, s.procs[s.current].registers);
    SameTablesKeepInv(s, s1);
    ScheduleReschedules(s1);
  }

  lemma DispatchAnswers(s: State, cause: Cause)
    requires Good(s) && Allowed(s, Trap(s.procs[s.current].registers, cause))
    ensures Answered(s, cause, Dispatch(s, cause))
  {
    match cause
    case SyscallExit => ExitAnswers(s);
    case SyscallYield => ScheduleReschedules(s);
    case Timer => ScheduleReschedules(s);
    case SyscallPageAlloc => PageAllocIsAnswered(s);
    case SyscallFork => ForkIsAnswered(s);
    case PageFault(user) =>
      if user {
        FaultIsAnswered(s);
      }
    case _ =>
  }

  /**
   * The handler saves the registers and does what the cause asks for: getpid answers the number of the process, yield
   * and the timer only pass the processor on, a user's page fault stops the process, exit releases its memory, and so
   * on. Whatever is not named stays as it is.
   */
  lemma TrapTheorem(s: State, registers: Registers, cause: Cause)
    requires Good(s) && Allowed(s, Trap(registers, cause))
    ensures WellFormed(Interrupted(s, s.current, registers))
    ensures Answered(Interrupted(s, s.current, registers), cause, Step(s, Trap(registers, cause)))
  {
    var s1 := SaveRegisters(s, registers);
    assert s1 == Interrupted(s, s.current, registers);
    SaveRegistersKeepsConditions(s, registers, cause);
    SaveRegistersKeepsGood(s, registers);
    InvariantIsChecked(s1);
    DispatchAnswers(s1, cause);
  }

  // A page fault ends a process

  /**
   * A process that accesses memory it must not is stopped where it stands: in every run that goes on from there it
   * never gets the processor again, and its registers and memory stay as they were at the fault.
   */
  lemma FaultEndsProcess(s: State, registers: Registers, es: seq<Event>)
    requires Good(s) && es != [] && es[0] == Trap(registers, PageFault(true)) && AllowedAlong(s, es)
    ensures Step(s, es[0]).Running? ==> NeverRuns(Step(s, es[0]).s, es[1..], s.current)
    ensures !Run(s, es).Halted? ==>
              && Run(s, es).s.procs[s.current] == s.procs[s.current].(registers := registers, state := P_BROKEN)
              && (forall v :: L.start <= v < L.top ==> View(Run(s, es).s, s.current, v) == View(s, s.current, v))
  {
    var q, o := s.current, Step(s, es[0]);
    TrapTheorem(s, registers, PageFault(true));
    StepIsGood(s, es[0]);
    var s1 := Faulted(s, q, registers);
    assert forall v :: L.start <= v < L.top ==> View(o.s, q, v) == View(s1, q, v) == View(s, q, v);
    if o.Running? {
      BrokenForEver(o.s, es[1..], q);
      if !Run(s, es).Halted? {
        assert Untouched(o.s, Run(s, es).s, q);
      }
    }
  }

  // Pages that belong to no process

  /** A page that is the kernel's or reserved stays so, and nobody writes to it; only the console is open to all. */
  predicate StaysUnowned(s: State, s': State, g: nat)
    requires WellFormed(s) && WellFormed(s') && g < L.npages
  {
    s.owner[g] < 0 ==>
      s'.owner[g] == s.owner[g] && s'.refcount[g] == s.refcount[g] && (g != L.console ==> s'.mem[g] == s.mem[g])
  }

  lemma ForkLeavesUnowned(s: State, s': State, k: nat, g: nat)
    requires Good(s) && ForkedExactly(s, s', k) && g < L.npages
    ensures StaysUnowned(s, s', g)
  {
    if s.owner[g] < 0 {
      if UserPage(g) {
        EntryKinds(s, s.current, g);
      }
      assert !SharesAt(s, s.current, g);
      if CanFork(s) {
        assert PageAfterFork(s, s', s.current, FreeSlot(s, 1).value, g);
      }
    }
  }

  lemma PageAllocLeavesUnowned(s: State, s': State, va: nat, g: nat)
    requires Good(s) && WellFormed(s') && PageAnswered(s, s', va) && g < L.npages
    ensures StaysUnowned(s, s', g)
  {
    if FreePages(s) != {} {
      var h :| PageArrives(s, s', va / 4096, h);
      assert ProcessOk(s, s.current);
    }
  }

  lemma TrapLeavesUnowned(s: State, cause: Cause, o: Outcome, g: nat)
    requires Good(s) && Answered(s, cause, o) && o.Ok() && g < L.npages
    ensures !o.Halted? ==> StaysUnowned(s, o.s, g)
  {
    if !o.Halted? {
      match cause
      case SyscallFork =>
        var k :| ForkedExactly(s, o.s, k);
        ForkLeavesUnowned(s, o.s, k, g);
      case SyscallPageAlloc => PageAllocLeavesUnowned(s, o.s, s.procs[s.current].registers.eax, g);
      case SyscallExit =>
        var s1 :| WellFormed(s1) && Released(s, s.current, s1) && Rescheduled(s1, o);
        assert ReleasedAt(s, s.current, s1, g);
      case _ =>
    }
  }

  lemma StoreLeavesUnowned(s: State, page: nat, index: nat, word: Word, g: nat)
    requires Good(s) && page < VPAGES && index < ENTRIES && g < L.npages
    ensures StaysUnowned(s, UserStore(s, page, index, word), g)
  {
    LookupOfLive(s, s.current, page);
    if page < ENTRIES && Writable(Pte(s, s.current, page)) {
      WritablePage(s, s.current, page);
    }
  }

  lemma StepLeavesUnowned(s: State, e: Event, g: nat)
    requires Good(s) && Allowed(s, e) && g < L.npages
    ensures !Step(s, e).Halted? ==> StaysUnowned(s, Step(s, e).s, g)
  {
    match e
    case Trap(registers, cause) =>
      var s1 := Interrupted(s, s.current, registers);
      TrapTheorem(s, registers, cause);
      SaveRegistersKeepsGood(s, registers);
      assert s1 == SaveRegisters(s, registers);
      TrapLeavesUnowned(s1, cause, Step(s, e), g);
    case Store(page, index, word) =>
      if page < VPAGES && index < ENTRIES {
        StoreLeavesUnowned(s, page, index, word, g);
      }
  }

  /** The one page outside its own memory that a program can write to: the console takes what is stored there. */
  lemma StoreToConsole(s: State, index: nat, word: Word)
    requires Good(s) && index < ENTRIES
    ensures UserStore(s, L.console, index, word) == s.(mem := Write(s.mem, L.console, index, word))
  {
    LookupOfLive(s, s.current, L.console);
    assert ProcessOk(s, s.current) && EntryOk(s, s.current, L.console, Pte(s, s.current, L.console));
  }

  /** No run gives away or writes to a page that belongs to no process, the console's contents aside. */
  lemma {:induction false} RunLeavesUnowned(s: State, es: seq<Event>, g: nat)
    requires Good(s) && AllowedAlong(s, es) && g < L.npages
    ensures !Run(s, es).Halted? ==> StaysUnowned(s, Run(s, es).s, g)
    decreases es
  {
    if es != [] {
      StepIsGood(s, es[0]);
      StepLeavesUnowned(s, es[0], g);
      var o := Step(s, es[0]);
      if o.Running? {
        RunLeavesUnowned(o.s, es[1..], g);
      }
    }
  }

  // The check at every interrupt

  /** Page t is the page directory of process q or one of the page tables that it links to. */
  predicate IsTableOf(s: State, q: nat, t: nat)
    requires WellFormed(s) && q < L.nproc
  {
    t == s.procs[q].pagedir || exists k :: 0 <= k < ENTRIES && Read(s.mem, s.procs[q].pagedir, k).present
                                           && Read(s.mem, s.procs[q].pagedir, k).frame == t
  }

  /** Process q is in use and has a directory of its own. */
  predicate OwnDirectory(s: State, q: nat)
    requires WellFormed(s)
  {
    q < L.nproc && s.procs[q].state != P_FREE && s.procs[q].pagedir != L.kernelDir
  }

  lemma CheckedTable(s: State, registers: Registers, q: nat, t: nat)
    requires WellFormed(s) && Checked(SaveRegisters(s, registers)) && OwnDirectory(s, q) && IsTableOf(s, q, t)
    ensures t < L.npages && s.owner[t] == q && s.refcount[t] == 1
  {
    var s1 := SaveRegisters(s, registers);
    assert s1.procs[q].pagedir == s.procs[q].pagedir && s1.procs[q].state == s.procs[q].state;
    assert DirectoryChecked(s1, s1.procs[q].pagedir, q, 1);
  }

  /** The kernel's directory has a reference for each process that shares it, its tables have one each. */
  ghost predicate KernelTablesCounted(s: State)
    requires WellFormed(s)
  {
    && s.owner[L.kernelDir] == PO_KERNEL
    && s.refcount[L.kernelDir] ==
         1 + |set q: nat | q < L.nproc && s.procs[q].state != P_FREE && s.procs[q].pagedir == L.kernelDir|
    && (forall k :: 0 <= k < ENTRIES && Read(s.mem, L.kernelDir, k).present ==>
         var t := Read(s.mem, L.kernelDir, k).frame;
         t < L.npages && s.owner[t] == PO_KERNEL && s.refcount[t] == 1)
  }

  lemma CheckedKernel(s: State, registers: Registers)
    requires WellFormed(s) && Checked(SaveRegisters(s, registers))
    ensures KernelTablesCounted(s)
  {
    var s1 := SaveRegisters(s, registers);
    assert DirectoryChecked(s1, L.kernelDir, PO_KERNEL, 1 + |UsersOfKernelDir(s1)|);
    assert UsersOfKernelDir(s1)
           == set q: nat | q < L.nproc && s.procs[q].state != P_FREE && s.procs[q].pagedir == L.kernelDir;
  }

  lemma CheckedOwners(s: State, registers: Registers)
    requires WellFormed(s) && Checked(SaveRegisters(s, registers))
    ensures s.procs[0].state == P_FREE
    ensures forall g :: 0 <= g < L.npages && s.refcount[g] > 0 && s.owner[g] >= 0 ==>
              s.owner[g] < L.nproc && s.procs[s.owner[g]].state != P_FREE
  {
    var s1 := SaveRegisters(s, registers);
    assert forall q :: 0 <= q < L.nproc ==> s1.procs[q].state == s.procs[q].state;
  }

  /**
   * What virtual_memory_check rejects, in any state, good or not: whenever an interrupt does not stop the kernel,
   * process 0 is not in use, no directory or table page is that of two processes or anything but its process's own with
   * one reference, the kernel's are the kernel's, and every page that a process owns belongs to a process in use.
   */
  lemma CheckRejects(s: State, registers: Registers, cause: Cause, p: nat, t: nat)
    requires WellFormed(s) && Step(s, Trap(registers, cause)) != Halted
    requires OwnDirectory(s, p) && IsTableOf(s, p, t)
    ensures s.procs[0].state == P_FREE && KernelTablesCounted(s)
    ensures t < L.npages && s.owner[t] == p && s.refcount[t] == 1
    ensures forall q :: OwnDirectory(s, q) && IsTableOf(s, q, t) ==> q == p
    ensures forall g :: 0 <= g < L.npages && s.refcount[g] > 0 && s.owner[g] >= 0 ==>
              s.owner[g] < L.nproc && s.procs[s.owner[g]].state != P_FREE
  {
    var s1 := SaveRegisters(s, registers);
    assert Checked(s1);
    forall q | OwnDirectory(s, q) && IsTableOf(s, q, t)
      ensures t < L.npages && s.owner[t] == q && s.refcount[t] == 1
    {
      CheckedTable(s, registers, q, t);
    }
    CheckedOwners(s, registers);
    CheckedKernel(s, registers);
  }
}
