/** Whole runs of the machine: arbitrary interleavings of user stores, system calls, timer and page faults. */
module KernelRuns {
  import opened Machine
  import opened KernelState
  import opened KernelInvariant
  import opened KernelFrames
  import opened KernelSteps
  import opened KernelFork
  import opened KernelSyscalls
  import opened KernelForkTheorem
  import opened KernelOverflow
  import opened KernelTheorems

  // One event

  lemma {:induction false} SameSlot(s: State, s': State, i: nat)
    requires WellFormed(s) && WellFormed(s') && i <= L.nproc
    requires forall q :: 0 <= q < L.nproc ==> (s'.procs[q].state == P_FREE <==> s.procs[q].state == P_FREE)
    ensures FreeSlot(s', i) == FreeSlot(s, i)
    decreases L.nproc - i
  {
    if i < L.nproc {
      SameSlot(s, s', i + 1);
    }
  }

  lemma SaveRegistersKeepsOverflow(s: State, registers: Registers)
    requires WellFormed(s)
    ensures ForkOverflows(SaveRegisters(s, registers)) == ForkOverflows(s)
  {
    var s1 := SaveRegisters(s, registers);
    SameSlot(s, s1, 1);
    assert FreePages(s1) == FreePages(s);
    forall v | UserPage(v)
      ensures OverflowsAt(s1, s.current, v) == OverflowsAt(s, s.current, v)
      ensures Reaches(s1, s.current, |FreePages(s)| - 2, v) == Reaches(s, s.current, |FreePages(s)| - 2, v)
    {
      assert WritableBelow(s1, s.current, v) == WritableBelow(s, s.current, v);
    }
  }

  lemma SaveRegistersKeepsConditions(s: State, registers: Registers, cause: Cause)
    requires Good(s)
    ensures var s1 := SaveRegisters(s, registers);
      && Allowed(s1, Trap(registers, cause)) == Allowed(s, Trap(registers, cause))
      && Stops(s1, Trap(registers, cause)) == Stops(s, Trap(registers, cause))
  {
    var s1 := SaveRegisters(s, registers);
    assert FreePages(s1) == FreePages(s);
    assert forall q, v :: 0 <= q < L.nproc && 0 <= v < ENTRIES ==> Pte(s1, q, v) == Pte(s, q, v);
    SaveRegistersKeepsOverflow(s, registers);
    assert forall q, g :: 0 <= q < L.nproc ==> CanInherit(s1, q, g) == CanInherit(s, q, g);
    assert forall g :: HasHeir(s1, s.current, g) == HasHeir(s, s.current, g);
  }

  /** Every event either stops the machine, exactly at the events listed in Stops, or leads to a good state. */
  lemma StepIsGood(s: State, e: Event)
    requires Good(s) && Allowed(s, e)
    ensures if Stops(s, e) then Step(s, e) == Halted else GoodOutcome(Step(s, e))
  {
    match e
    case Trap(registers, cause) =>
      SaveRegistersKeepsConditions(s, registers, cause);
      SaveRegistersKeepsGood(s, registers);
      InvariantIsChecked(SaveRegisters(s, registers));
      DispatchIsGood(SaveRegisters(s, registers), registers, cause);
    case Store(page, index, word) =>
      if page < VPAGES && index < ENTRIES {
        StoreKeepsInv(s, page, index, word);
      }
  }

  /** What is not allowed stops the kernel or breaks the invariant. */
  lemma UnsafeDispatch(s: State, registers: Registers, cause: Cause, o: Outcome)
    requires Good(s) && s.procs[s.current].registers == registers
    requires !Allowed(s, Trap(registers, cause)) && o == Dispatch(s, cause)
    ensures !GoodOutcome(o)
  {
    match cause
    case SyscallPageAlloc => UnsafePageAlloc(s, registers.eax, o);
    case SyscallFork => OverflowBreaks(s, o);
  }

  /**
   * Where the kernel does not stop on purpose, an event leads to a good state if and only if it is allowed. Good states
   * keep the addresses from the top of the user area up to four megabytes empty; see UnsafePageAlloc.
   */
  lemma StepIsGoodExactly(s: State, e: Event)
    requires Good(s) && !Stops(s, e)
    ensures GoodOutcome(Step(s, e)) <==> Allowed(s, e)
  {
    if Allowed(s, e) {
      StepIsGood(s, e);
    } else {
      var s1 := SaveRegisters(s, e.registers);
      SaveRegistersKeepsConditions(s, e.registers, e.cause);
      SaveRegistersKeepsGood(s, e.registers);
      InvariantIsChecked(s1);
      UnsafeDispatch(s1, e.registers, e.cause, Dispatch(s1, e.cause));
    }
  }

  // Runs

  /** The run ends when its events are used up, when no process can run, or when the kernel stops. */
  ghost function Run(s: State, es: seq<Event>): (r: Outcome)
    requires WellFormed(s)
    ensures r.Ok()
    decreases es
  {
    if es == [] then Running(s) else
    var o := Step(s, es[0]);
    if o.Running? then Run(o.s, es[1..]) else o
  }

  ghost predicate AllowedAlong(s: State, es: seq<Event>)
    requires WellFormed(s)
    decreases es
  {
    es != [] ==> Allowed(s, es[0]) && (Step(s, es[0]).Running? ==> AllowedAlong(Step(s, es[0]).s, es[1..]))
  }

  ghost predicate StopsAlong(s: State, es: seq<Event>)
    requires WellFormed(s)
    decreases es
  {
    es != [] && (Stops(s, es[0]) || (Step(s, es[0]).Running? && StopsAlong(Step(s, es[0]).s, es[1..])))
  }

  /**
   * From a good state every run stays good: no reference count goes wrong, no assertion fails unexpectedly, and the
   * kernel stops only at an event of Stops.
   */
  lemma {:induction false} RunIsGood(s: State, es: seq<Event>)
    requires Good(s) && AllowedAlong(s, es)
    ensures if StopsAlong(s, es) then Run(s, es) == Halted else GoodOutcome(Run(s, es))
    decreases es
  {
    if es != [] {
      StepIsGood(s, es[0]);
      var o := Step(s, es[0]);
      if o.Running? {
        RunIsGood(o.s, es[1..]);
      }
    }
  }

  // Isolation over runs

  lemma UntouchedTransitive(s: State, s1: State, s2: State, r: nat)
    requires WellFormed(s) && WellFormed(s1) && WellFormed(s2) && r < L.nproc
    requires Untouched(s, s1, r) && Untouched(s1, s2, r)
    ensures Untouched(s, s2, r)
  {
    forall v | L.start <= v < L.top
      ensures View(s2, r, v) == View(s, r, v)
    {
      assert View(s1, r, v) == View(s, r, v);
    }
  }

  /** A store by one process is never seen by another. */
  lemma StoreUntouched(s: State, page: nat, index: nat, word: Word, r: nat)
    requires Good(s) && page < VPAGES && index < ENTRIES && Live(s, r) && r != s.current
    ensures Untouched(s, UserStore(s, page, index, word), r)
  {
    var s' := UserStore(s, page, index, word);
    var q := s.current;
    LookupOfLive(s, q, page);
    forall g | 0 <= g < L.npages && r in Users(s, g)
      ensures s'.mem[g] == s.mem[g]
    {
      if page < ENTRIES && Writable(Pte(s, q, page)) {
        WritablePage(s, q, page);
        if UserPage(page) {
          WritableIsIsolated(s, q, page);
        } else {
          FreeHasNoUsers(s, L.console);
        }
      }
    }
    UntouchedIf(s, s', r);
  }

  lemma GrantUntouched(s: State, q: nat, v: nat, g: nat, r: nat, s': State)
    requires Inv(s) && Live(s, q) && UserPage(v) && g in FreePages(s) && Live(s, r) && r != q
    requires s' == Granted(s, q, v, g, s.mem[g])
    ensures Untouched(s, s', r)
  {
    TablesArePrivate(s, q);
    UntouchedIf(s, s', r);
  }

  lemma PageAllocUntouched(s: State, r: nat)
    requires Good(s) && Live(s, r) && r != s.current
    requires PageAllocIsSafe(s, s.procs[s.current].registers.eax)
    ensures SysPageAlloc(s).Running? && Untouched(s, SysPageAlloc(s).s, r)
  {
    var q, va := s.current, s.procs[s.current].registers.eax;
    InvFreeUncounted(s);
    AllocFindsFree(s);
    if Alloc(s).Some? {
      var g := Alloc(s).value;
      var s' := Granted(s, q, va / 4096, g, ReadPage(s.mem, g));
      PageAllocOutcome(s, va, s');
      GrantUntouched(s, q, va / 4096, g, r, s');
      SetEaxUntouched(s, s', q, g * 4096, r);
    } else {
      SetEaxUntouched(s, s, q, MINUS_ONE, r);
    }
  }

  /** Choosing the next process changes nothing else. */
  lemma ScheduleUntouched(s: State, s1: State, r: nat)
    requires WellFormed(s) && WellFormed(s1) && r < L.nproc && Untouched(s, s1, r)
    ensures !Schedule(s1).Halted? ==> Untouched(s, Schedule(s1).s, r)
  {
    if !Schedule(s1).Halted? {
      var s2 := Schedule(s1).s;
      assert forall v :: L.start <= v < L.top ==> View(s2, r, v) == View(s1, r, v);
    }
  }

  lemma DispatchUntouched(s: State, registers: Registers, cause: Cause, r: nat)
    requires Good(s) && s.procs[s.current].registers == registers && Live(s, r) && r != s.current
    requires Allowed(s, Trap(registers, cause))
    ensures !Dispatch(s, cause).Halted? ==> Untouched(s, Dispatch(s, cause).s, r)
  {
    match cause
    case SyscallExit =>
      if Release(s, s.current).Some? {
        ReleaseUntouched(s, s.current, r, Release(s, s.current).value);
        ScheduleUntouched(s, Release(s, s.current).value, r);
      }
    case SyscallGetpid =>
      SetEaxUntouched(s, s, s.current, s.current, r);
    case SyscallYield =>
      ScheduleUntouched(s, s, r);
    case Timer =>
      ScheduleUntouched(s, s, r);
    case SyscallPageAlloc =>
      PageAllocUntouched(s, r);
    case SyscallFork =>
      var s', k := ForkTheorem(s);
    case PageFault(user) =>
      var s1 := SetState(s, s.current, P_BROKEN);
      assert forall v :: L.start <= v < L.top ==> View(s1, r, v) == View(s, r, v);
      ScheduleUntouched(s, s1, r);
    case _ =>
  }

  /** No event of the running process changes what another process sees, or its registers. */
  lemma StepUntouched(s: State, e: Event, r: nat)
    requires Good(s) && Allowed(s, e) && Live(s, r) && r != s.current
    ensures !Step(s, e).Halted? ==> Untouched(s, Step(s, e).s, r)
  {
    match e
    case Trap(registers, cause) =>
      var s1 := SaveRegisters(s, registers);
      SaveRegistersKeepsConditions(s, registers, cause);
      SaveRegistersKeepsGood(s, registers);
      assert forall v :: L.start <= v < L.top ==> View(s1, r, v) == View(s, r, v);
      DispatchUntouched(s1, registers, cause, r);
      if !Step(s, e).Halted? {
        UntouchedTransitive(s, s1, Step(s, e).s, r);
      }
    case Store(page, index, word) =>
      if page < VPAGES && index < ENTRIES {
        StoreUntouched(s, page, index, word, r);
      }
  }

  /** Process r does not get to run. */
  ghost predicate NeverRuns(s: State, es: seq<Event>, r: nat)
    requires WellFormed(s)
    decreases es
  {
    es != [] ==>
      && s.current != r
      && (Step(s, es[0]).Running? ==> NeverRuns(Step(s, es[0]).s, es[1..], r))
  }

  /** However long the others run, a process finds its memory and registers as it left them. */
  lemma {:induction false} RunUntouched(s: State, es: seq<Event>, r: nat)
    requires Good(s) && AllowedAlong(s, es) && Live(s, r) && NeverRuns(s, es, r)
    ensures !Run(s, es).Halted? ==> Untouched(s, Run(s, es).s, r)
    decreases es
  {
    if es != [] {
      StepIsGood(s, es[0]);
      StepUntouched(s, es[0], r);
      var o := Step(s, es[0]);
      if o.Running? {
        RunUntouched(o.s, es[1..], r);
        if !Run(s, es).Halted? {
          UntouchedTransitive(s, o.s, Run(s, es).s, r);
        }
      }
    }
  }

  /** A process that the kernel has stopped for a page fault never runs again, and nobody touches what is left of it. */
  lemma {:induction false} BrokenForEver(s: State, es: seq<Event>, r: nat)
    requires Good(s) && AllowedAlong(s, es) && Live(s, r) && s.procs[r].state == P_BROKEN
    ensures NeverRuns(s, es, r)
    ensures !Run(s, es).Halted? ==> Untouched(s, Run(s, es).s, r)
    decreases es
  {
    if es != [] {
      StepIsGood(s, es[0]);
      StepUntouched(s, es[0], r);
      var o := Step(s, es[0]);
      if o.Running? {
        BrokenForEver(o.s, es[1..], r);
      }
    }
    RunUntouched(s, es, r);
  }
}
