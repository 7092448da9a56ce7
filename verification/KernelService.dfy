/** What the kernel owes a running process: its stores stay, its pages arrive, and its turn comes. */
module KernelService {
  import opened Machine
  import opened KernelState
  import opened KernelInvariant
  import opened KernelFrames
  import opened KernelSteps
  import opened KernelFork
  import opened KernelSyscalls
  import opened KernelForkTheorem
  import opened KernelTheorems
  import opened KernelRuns

  // Memory

  /** A page that a live process can write is not what any other of its pages is mapped to. */
  lemma OtherPagesElsewhere(s: State, q: nat, v: nat, w: nat)
    requires Inv(s) && Live(s, q) && UserPage(v) && UserPage(w) && v != w
    requires Writable(Pte(s, q, v)) && Readable(Pte(s, q, w))
    ensures Pte(s, q, w).frame != Pte(s, q, v).frame
  {
    assert ProcessOk(s, q);
    assert MappedOnce(s, q, if v < w then v else w, if v < w then w else v);
  }

  /** A store through a writable page changes that word of that page and nothing else that the process sees. */
  lemma StoreIsSeen(s: State, v: nat, i: nat, word: Word, s': State)
    requires Good(s) && UserPage(v) && i < ENTRIES && Writable(Pte(s, s.current, v))
    requires s' == UserStore(s, v, i, word)
    ensures View(s, s.current, v).Access?
    ensures View(s', s.current, v) == Access(true, View(s, s.current, v).content[i := word])
    ensures forall w :: L.start <= w < L.top && w != v ==> View(s', s.current, w) == View(s, s.current, w)
  {
    var q := s.current;
    assert ProcessOk(s, q);
    LookupOfLive(s, q, v);
    WritablePage(s, q, v);
    StoreKeepsTranslation(s, v, i, word, q);
    TranslationKept(s, s', q);
    forall w | L.start <= w < L.top && w != v
      ensures View(s', q, w) == View(s, q, w)
    {
      if Readable(Pte(s, q, w)) {
        OtherPagesElsewhere(s, q, v, w);
      }
    }
  }

  /** Without write permission a store changes nothing. */
  lemma StoreIsRefused(s: State, v: nat, i: nat, word: Word)
    requires Good(s) && v < VPAGES && i < ENTRIES
    requires v >= ENTRIES || !Writable(Pte(s, s.current, v))
    ensures UserStore(s, v, i, word) == s
  {
    LookupOfLive(s, s.current, v);
  }

  lemma GrantIsSeen(s: State, q: nat, v: nat, g: nat, s': State)
    requires Inv(s) && Live(s, q) && UserPage(v) && g in FreePages(s)
    requires s' == Granted(s, q, v, g, ReadPage(s.mem, g))
    ensures View(s', q, v) == Access(true, s.mem[g])
    ensures forall w :: L.start <= w < L.top && w != v ==> View(s', q, w) == View(s, q, w)
  {
    GrantEntries(s, q, v, g, ReadPage(s.mem, g));
    TablesArePrivate(s, q);
    assert ProcessOk(s, q);
    forall w | L.start <= w < L.top && w != v
      ensures View(s', q, w) == View(s, q, w)
    {
      if Readable(Pte(s, q, w)) {
        NotMappedWhenFree(s, q, w, g);
        assert MapsAt(s, q, w, Pte(s, q, w).frame);
      }
    }
  }

  /** The current process has received page g, the lowest that was free, at v. */
  ghost predicate PageArrives(s: State, s': State, v: nat, g: nat)
    requires WellFormed(s) && WellFormed(s') && UserPage(v)
  {
    var q := s.current;
    && g in FreePages(s) && (forall h :: h in FreePages(s) ==> g <= h)
    && s'.owner == s.owner[g := q] && s'.refcount == s.refcount[g := 1] && s'.current == q
    && s'.procs == s.procs[q := s.procs[q].(registers := s.procs[q].registers.(eax := g * 4096))]
    && (forall h :: 0 <= h < L.npages && h != Table(s, q) ==> s'.mem[h] == s.mem[h])
    && View(s', q, v) == Access(true, s.mem[g])
    && (forall w :: L.start <= w < L.top && w != v ==> View(s', q, w) == View(s, q, w))
  }

  /**
   * sys_page_alloc fails, with -1 and without effect, exactly when no page is free. Otherwise it answers the address of
   * a page that was free, which the process can now write at the place it asked for; it sees no other change.
   */
  lemma PageAllocAnswers(s: State, va: nat, s': State)
    requires Good(s) && va == s.procs[s.current].registers.eax && va % 4096 == 0 && UserPage(va / 4096)
    requires SysPageAlloc(s) == Running(s')
    ensures var q := s.current;
      if FreePages(s) == {} then s' == SetEax(s, q, MINUS_ONE)
      else exists g :: PageArrives(s, s', va / 4096, g)
    ensures FreePages(s) != {} ==> |FreePages(s')| == |FreePages(s)| - 1
  {
    InvFreeUncounted(s);
    AllocFindsFree(s);
    if FreePages(s) != {} {
      var q, g := s.current, Alloc(s).value;
      var s1 := Granted(s, q, va / 4096, g, ReadPage(s.mem, g));
      PageAllocOutcome(s, va, s1);
      GrantIsSeen(s, q, va / 4096, g, s1);
      TakeFromFree(s, g, q);
      GrantKeepsInv(s, q, va / 4096, g, ReadPage(s.mem, g));
      SetEaxKeepsInv(s1, q, g * 4096);
      assert FreePages(s1) == FreePages(s) - {g};
      assert PageArrives(s, s', va / 4096, g);
    }
  }

  // Scheduling

  /** How far process q is from p in the cyclic order, a whole round for p itself. */
  function Distance(p: nat, q: nat): nat
    requires p < L.nproc
  {
    if q > p then q - p else q + L.nproc - p
  }

  /** The scheduler's choice is the nearest runnable process. */
  lemma {:induction false} NextRunnableIsNearest(s: State, pid: nat, n: nat, q: nat)
    requires WellFormed(s) && pid < L.nproc && q < L.nproc && s.procs[q].state == P_RUNNABLE
    ensures var r := NextRunnable(s, pid, n); r.Some? ==> Distance(pid, r.value) <= Distance(pid, q)
    decreases n
  {
    if n != 0 {
      var next := NextPid(pid);
      if s.procs[next].state != P_RUNNABLE {
        NextRunnableIsNearest(s, next, n - 1, q);
      }
    }
  }

  /** Every time the scheduler runs, a runnable process gets the processor or comes nearer to it. */
  lemma TurnComesNearer(s: State, q: nat, s': State)
    requires Inv(s) && Runnable(s, q) && Schedule(s) == Running(s')
    ensures s'.current == q || Distance(s'.current, q) < Distance(s.current, q)
  {
    NextRunnableIsNearest(s, s.current, L.nproc, q);
  }

  /** The events at which the kernel chooses the next process to run. */
  predicate Reschedules(e: Event) {
    e.Trap? && (e.cause.SyscallExit? || e.cause.SyscallYield? || e.cause.Timer? || e.cause == PageFault(true))
  }

  lemma ExitMoves(s: State, q: nat, s': State)
    requires Good(s) && Runnable(s, q) && q != s.current && SysExit(s) == Running(s')
    ensures s'.current == q || Distance(s'.current, q) < Distance(s.current, q)
  {
    ReleaseTheorem(s, s.current);
    ReleaseKeepsInv(s, s.current);
    TurnComesNearer(Release(s, s.current).value, q, s');
  }

  lemma FaultMoves(s: State, q: nat, s': State)
    requires Good(s) && Runnable(s, q) && q != s.current
    requires Schedule(SetState(s, s.current, P_BROKEN)) == Running(s')
    ensures s'.current == q || Distance(s'.current, q) < Distance(s.current, q)
  {
    SameTablesKeepInv(s, SetState(s, s.current, P_BROKEN));
    TurnComesNearer(SetState(s, s.current, P_BROKEN), q, s');
  }

  lemma PageAllocReturns(s: State, s': State)
    requires WellFormed(s) && SysPageAlloc(s) == Running(s')
    ensures s'.current == s.current
  {
  }

  lemma ForkReturns(s: State, s': State)
    requires WellFormed(s) && SysFork(s) == Running(s')
    ensures s'.current == s.current
  {
  }

  lemma DispatchMoves(s: State, registers: Registers, cause: Cause, q: nat, s': State)
    requires Good(s) && Runnable(s, q) && q != s.current && Dispatch(s, cause) == Running(s')
    ensures if Reschedules(Trap(registers, cause)) then
              s'.current == q || Distance(s'.current, q) < Distance(s.current, q)
            else s'.current == s.current
  {
    match cause
    case SyscallExit => ExitMoves(s, q, s');
    case SyscallYield => TurnComesNearer(s, q, s');
    case Timer => TurnComesNearer(s, q, s');
    case PageFault(user) => FaultMoves(s, q, s');
    case SyscallPageAlloc => PageAllocReturns(s, s');
    case SyscallFork => ForkReturns(s, s');
    case _ =>
  }

  lemma StepMoves(s: State, e: Event, q: nat, s': State)
    requires Good(s) && Allowed(s, e) && Runnable(s, q) && q != s.current && Step(s, e) == Running(s')
    ensures Good(s') && Runnable(s', q)
    ensures if Reschedules(e) then s'.current == q || Distance(s'.current, q) < Distance(s.current, q)
            else s'.current == s.current
  {
    StepIsGood(s, e);
    StepUntouched(s, e, q);
    if e.Trap? {
      var s1 := SaveRegisters(s, e.registers);
      SaveRegistersKeepsConditions(s, e.registers, e.cause);
      SaveRegistersKeepsGood(s, e.registers);
      DispatchMoves(s1, e.registers, e.cause, q, s');
    }
  }

  /** How many times the kernel chooses a process in the run. */
  ghost function Decisions(s: State, es: seq<Event>): nat
    requires WellFormed(s)
    decreases es
  {
    if es == [] then 0 else
    (if Reschedules(es[0]) then 1 else 0)
    + (if Step(s, es[0]).Running? then Decisions(Step(s, es[0]).s, es[1..]) else 0)
  }

  /**
   * No starvation: while a runnable process q does not get to run, the kernel decides at most as often as q is far from
   * the running process, hence at most NPROC times; whatever the others do, q's turn has come by then.
   */
  lemma {:induction false} TurnComes(s: State, es: seq<Event>, q: nat)
    requires Good(s) && AllowedAlong(s, es) && Runnable(s, q) && NeverRuns(s, es, q)
    ensures Decisions(s, es) <= Distance(s.current, q) <= L.nproc
    decreases es
  {
    if es != [] && Step(s, es[0]).Running? {
      var s' := Step(s, es[0]).s;
      StepMoves(s, es[0], q, s');
      TurnComes(s', es[1..], q);
    }
  }
}
