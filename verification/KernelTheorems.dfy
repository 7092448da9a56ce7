/**
 * The kernel over whole runs: it never fails an assertion that it should not fail, processes are isolated from
 * each other, and no page is handed out while somebody uses it.
 */
module KernelTheorems {
  import opened Wrappers
  import opened Machine
  import opened KernelState
  import opened KernelInvariant
  import opened KernelFrames
  import opened KernelSteps
  import opened KernelFork
  import opened KernelSyscalls
  import opened KernelForkTheorem

  // What the invariant means

  /**
   * A page that a process can write in the user area is its own, has reference count 1, and is used by no other
   * process and at no other address of that process.
   */
  lemma WritableIsIsolated(s: State, q: nat, v: nat)
    requires Inv(s) && Live(s, q) && UserPage(v) && Writable(Pte(s, q, v))
    ensures var g := Pte(s, q, v).frame;
      && Private(s, q, g) && Users(s, g) == {q}
      && (forall w :: L.start <= w < L.top && w != v && Pte(s, q, w) != ZERO ==> Pte(s, q, w).frame != g)
  {
    EntryKinds(s, q, v);
    PrivateHasOneUser(s, q, Pte(s, q, v).frame);
    assert ProcessOk(s, q);
    forall w | L.start <= w < L.top && w != v && Pte(s, q, w) != ZERO
      ensures Pte(s, q, w).frame != Pte(s, q, v).frame
    {
      assert if w < v then MappedOnce(s, q, w, v) else MappedOnce(s, q, v, w);
    }
  }

  /** No user mapping leads to a directory, a page table, or a page that is free, reserved or the kernel's. */
  lemma UserMappingsAreHarmless(s: State, q: nat, v: nat, r: nat)
    requires Inv(s) && Live(s, q) && Live(s, r) && UserPage(v) && Readable(Pte(s, q, v))
    ensures var g := Pte(s, q, v).frame;
      g < L.npages && s.owner[g] > 0 && g != s.procs[r].pagedir && g != Table(s, r)
  {
    var g := Pte(s, q, v).frame;
    assert MapsAt(s, q, v, g);
    MappedIsOwned(s, q, g);
    TablesArePrivate(s, r);
    assert q in Users(s, g);
  }

  /** The allocator only hands out pages that no live process owns or maps. */
  lemma AllocatedPageIsUnused(s: State)
    requires Inv(s) && Alloc(s).Some?
    ensures Users(s, Alloc(s).value) == {}
  {
    FreeHasNoUsers(s, Alloc(s).value);
  }

  /** virtual_memory_check never fails. */
  lemma InvariantIsChecked(s: State)
    requires Inv(s)
    ensures Checked(s)
  {
    forall q | 0 <= q < L.nproc && s.procs[q].state != P_FREE
      ensures s.procs[q].pagedir != L.kernelDir && DirectoryChecked(s, s.procs[q].pagedir, q, 1)
    {
      assert q != 0;
      assert ProcessOk(s, q);
    }
    assert UsersOfKernelDir(s) == {};
    forall g | 0 <= g < L.npages && s.refcount[g] > 0 && s.owner[g] >= 0
      ensures s.owner[g] < L.nproc && s.procs[s.owner[g]].state != P_FREE
    {
      assert PageOk(s, g);
    }
  }

  // Exit

  /** Some other runnable process is found for page g when process p exits. */
  predicate HasHeir(s: State, p: nat, g: nat)
    requires WellFormed(s)
  {
    exists q :: 1 <= q < L.nproc && q != p && CanInherit(s, q, g)
  }

  lemma HeirExists(s: State, p: nat, g: nat)
    requires WellFormed(s) && 1 <= p < L.nproc && g < L.npages
    ensures Heir(SetState(s, p, P_BLOCKED), g, 1).Some? <==> HasHeir(s, p, g)
    ensures Heir(SetState(s, p, P_BLOCKED), g, 1).Some? ==>
              var q := Heir(SetState(s, p, P_BLOCKED), g, 1).value;
              && q != p && CanInherit(s, q, g)
              && (forall r :: 1 <= r < q && r != p ==> !CanInherit(s, r, g))
  {
    var b := SetState(s, p, P_BLOCKED);
    forall q | 0 <= q < L.nproc && q != p
      ensures CanInherit(b, q, g) == CanInherit(s, q, g)
    {
      assert forall j :: 0 <= j < L.npages ==> Pte(b, q, j) == Pte(s, q, j);
    }
  }

  lemma StuckWithoutHeir(s: State, p: nat, b: State, g: nat)
    requires Inv(s) && Live(s, p) && b == SetState(s, p, P_BLOCKED) && g < L.npages
    ensures Stuck(b, p, g) <==> s.owner[g] == p && s.refcount[g] > 1 && !HasHeir(s, p, g)
  {
    assert PageOk(s, g);
    HeirExists(s, p, g);
  }

  lemma ReleasedPageAt(s: State, p: nat, b: State, s': State, g: nat)
    requires Inv(s) && Live(s, p) && b == SetState(s, p, P_BLOCKED) && g < L.npages
    requires Release(s, p) == Some(s') && !Stuck(b, p, g)
    ensures ReleasedAt(s, p, s', g)
  {
    assert PageOk(s, g);
    HeirExists(s, p, g);
  }

  /**
   * Releasing process p succeeds exactly when each page that p owns and shares has an heir. Then p's other pages
   * become free, each shared page loses one reference and goes to the lowest-numbered heir, and nothing else
   * changes except that p is gone.
   */
  lemma ReleaseTheorem(s: State, p: nat)
    requires Inv(s) && Live(s, p)
    ensures Release(s, p).Some? <==>
              forall g :: 0 <= g < L.npages && s.owner[g] == p && s.refcount[g] > 1 ==> HasHeir(s, p, g)
    ensures Release(s, p).Some? ==> Released(s, p, Release(s, p).value)
  {
    var b := SetState(s, p, P_BLOCKED);
    forall g | 0 <= g < L.npages
      ensures Stuck(b, p, g) <==> s.owner[g] == p && s.refcount[g] > 1 && !HasHeir(s, p, g)
    {
      StuckWithoutHeir(s, p, b, g);
    }
    if Release(s, p).Some? {
      var s' := Release(s, p).value;
      forall g | 0 <= g < L.npages
        ensures ReleasedAt(s, p, s', g)
      {
        assert !Stuck(b, p, g);
        ReleasedPageAt(s, p, b, s', g);
      }
    }
  }

  predicate ReleasedAt(s: State, p: nat, s': State, g: nat)
    requires WellFormed(s) && WellFormed(s') && p < L.nproc && g < L.npages
  {
    if s.owner[g] != p then s'.owner[g] == s.owner[g] && s'.refcount[g] == s.refcount[g]
    else if s.refcount[g] == 1 then s'.owner[g] == PO_FREE && s'.refcount[g] == 0
    else
      && s'.refcount[g] == s.refcount[g] - 1
      && 1 <= s'.owner[g] < L.nproc && s'.owner[g] != p && CanInherit(s, s'.owner[g], g)
      && (forall r :: 1 <= r < s'.owner[g] && r != p ==> !CanInherit(s, r, g))
  }

  predicate Released(s: State, p: nat, s': State)
    requires WellFormed(s) && WellFormed(s') && p < L.nproc
  {
    && s'.mem == s.mem && s'.current == s.current
    && s'.procs == s.procs[p := s.procs[p].(state := P_FREE)]
    && (forall g :: 0 <= g < L.npages ==> ReleasedAt(s, p, s', g))
  }

  // Single events

  datatype Event = Trap(registers: Registers, cause: Cause) | Store(page: nat, index: nat, word: Word)

  ghost function Step(s: State, e: Event): (r: Outcome)
    requires WellFormed(s)
    ensures r.Ok()
  {
    match e
    case Trap(registers, cause) => Interrupt(s, registers, cause)
    case Store(page, index, word) =>
      if page < VPAGES && index < ENTRIES then Running(UserStore(s, page, index, word)) else Running(s)
  }

  /** The address asked for is the start of a page of the user area, or there is no page to map there anyway. */
  ghost predicate PageAllocIsSafe(s: State, va: nat)
    requires WellFormed(s)
  {
    FreePages(s) == {} || (va % 4096 == 0 && UserPage(va / 4096))
  }

  /** The two things that the kernel does not guard against. */
  ghost predicate Allowed(s: State, e: Event)
    requires WellFormed(s)
  {
    match e
    case Trap(registers, SyscallPageAlloc) => PageAllocIsSafe(s, registers.eax)
    case Trap(_, SyscallFork) => !ForkOverflows(s)
    case _ => true
  }

  /** The events at which the kernel stops on purpose, or because an exiting process leaves a page without heir. */
  predicate Stops(s: State, e: Event)
    requires WellFormed(s)
  {
    e.Trap? &&
    match e.cause
    case SyscallPanic => true
    case Unexpected => true
    case PageFault(user) => !user
    case SyscallExit =>
      exists g :: 0 <= g < L.npages && s.owner[g] == s.current && s.refcount[g] > 1 && !HasHeir(s, s.current, g)
    case _ => false
  }

  /** The state between events: the invariant holds and the current process is runnable. */
  ghost predicate Good(s: State) {
    Inv(s) && Runnable(s, s.current)
  }

  /** What may follow a good state: a good state, or one in which no process can run. */
  ghost predicate GoodOutcome(o: Outcome) {
    match o
    case Running(s) => Good(s)
    case Spinning(s) => Inv(s) && (forall q :: 0 <= q < L.nproc ==> s.procs[q].state != P_RUNNABLE)
    case Halted => false
  }

  lemma SaveRegistersKeepsGood(s: State, registers: Registers)
    requires Good(s)
    ensures Good(SaveRegisters(s, registers))
  {
    SameTablesKeepInv(s, SaveRegisters(s, registers));
  }

  lemma NextPid(pid: nat) returns (next: nat)
    requires pid < L.nproc
    ensures next == (pid + 1) % L.nproc == if pid + 1 == L.nproc then 0 else pid + 1
  {
    next := (pid + 1) % L.nproc;
    NextModulo(pid, L.nproc);
  }

  lemma NextModulo(p: nat, n: nat)
    requires p < n
    ensures (p + 1) % n == if p + 1 == n then 0 else p + 1
  {
    var q, r := (p + 1) / n, (p + 1) % n;
    assert p + 1 == q * n + r;
    TwiceIsMore(q, n);
  }

  lemma TwiceIsMore(q: int, n: nat)
    ensures q >= 2 ==> q * n >= 2 * n
  {
    assert q >= 2 ==> (q - 2) * n >= 0;
  }

  /** The scheduler looks at every process before it gives up. */
  lemma {:induction false} NextRunnableFinds(s: State, pid: nat, n: nat, q: nat)
    requires WellFormed(s) && pid < L.nproc && q < L.nproc && s.procs[q].state == P_RUNNABLE
    requires n >= (if q > pid then q - pid else q + L.nproc - pid)
    ensures NextRunnable(s, pid, n).Some?
    decreases n
  {
    var next := NextPid(pid);
    if next != q {
      NextRunnableFinds(s, next, n - 1, q);
    }
  }

  lemma ScheduleIsGood(s: State)
    requires Inv(s)
    ensures GoodOutcome(Schedule(s))
  {
    var next := NextRunnable(s, s.current, L.nproc);
    if next.Some? {
      assert next.value != 0;
      SameTablesKeepInv(s, s.(current := next.value));
    } else {
      forall q | 0 <= q < L.nproc
        ensures s.procs[q].state != P_RUNNABLE
      {
        if s.procs[q].state == P_RUNNABLE {
          NextRunnableFinds(s, s.current, L.nproc, q);
        }
      }
    }
  }

  /** A granted page in terms of sys_page_alloc. */
  lemma PageAllocOutcome(s: State, va: nat, s': State)
    requires Good(s) && va == s.procs[s.current].registers.eax && va % 4096 == 0 && UserPage(va / 4096)
    requires Alloc(s).Some?
    requires s' == Granted(s, s.current, va / 4096, Alloc(s).value, ReadPage(s.mem, Alloc(s).value))
    ensures SysPageAlloc(s) == Running(SetEax(s', s.current, Alloc(s).value * 4096))
  {
    var q, g := s.current, Alloc(s).value;
    assert ProcessOk(s, q);
    var s1 := Take(s, g, q);
    MapOnePage(s1.mem, s.procs[q].pagedir, va, g, PERM_USER_WRITE);
    SetEntryWrites(s, s1.mem, q, va / 4096, MakePte(g, PERM_USER_WRITE));
    assert s.mem[g := s.mem[g]] == s.mem;
  }

  lemma PageAllocIsGood(s: State)
    requires Good(s) && PageAllocIsSafe(s, s.procs[s.current].registers.eax)
    ensures SysPageAlloc(s).Running? && Good(SysPageAlloc(s).s)
  {
    var q, va := s.current, s.procs[s.current].registers.eax;
    InvFreeUncounted(s);
    AllocFindsFree(s);
    if Alloc(s).None? {
      SetEaxKeepsInv(s, q, MINUS_ONE);
    } else {
      var g := Alloc(s).value;
      var s' := Granted(s, q, va / 4096, g, ReadPage(s.mem, g));
      PageAllocOutcome(s, va, s');
      GrantKeepsInv(s, q, va / 4096, g, ReadPage(s.mem, g));
      SetEaxKeepsInv(s', q, g * 4096);
    }
  }

  /** Without a page table there is nothing to map a page in. */
  lemma NoTableNoMapping(mem: Memory, dir: nat, va: nat, pa: nat)
    requires va < 0x1_0000_0000 && pa < 0x1_0000_0000
    requires !Read(mem, dir, DirSlot(va / 4096)).present
    ensures VirtualMemoryMap(mem, dir, va, pa, PAGESIZE, PERM_USER_WRITE).None?
  {
    if va % 4096 == 0 && pa % 4096 == 0 && va + PAGESIZE < 0x1_0000_0000 && pa + PAGESIZE < 0x1_0000_0000 {
      assert PAGESIZE / 4096 == 1;
      assert MapFrom(mem, dir, None, va / 4096, pa / 4096, 1, PERM_USER_WRITE).None?;
    }
  }

  /** A user-writable entry outside the user area is more than any process may have. */
  lemma WritableOutsideBreaks(s: State, q: nat, v: nat, g: nat, s': State)
    requires Inv(s) && Live(s, q) && v < ENTRIES && !UserPage(v) && g in FreePages(s)
    requires WellFormed(s') && s'.mem == Write(s.mem, Table(s, q), v, MakePte(g, PERM_USER_WRITE))
    requires s'.procs[q].pagedir == s.procs[q].pagedir && Live(s', q)
    ensures !Inv(s')
  {
    assert ProcessOk(s, q);
    var d := s.procs[q].pagedir;
    assert Read(s'.mem, d, 0) == Read(s.mem, d, 0);
    assert Pte(s', q, v) == MakePte(g, PERM_USER_WRITE);
    assert !EntryOk(s', q, v, Pte(s', q, v));
  }

  /**
   * At any other address, sys_page_alloc with a page to give stops the kernel or leaves a state outside the invariant.
   * Below the user area that is a hole in the kernel's own memory map. From the top of the user area up to four
   * megabytes it is not: there, too, the page is the caller's alone, and what breaks is only that the invariant keeps
   * that range, which fork does not look at, empty.
   */
  lemma UnsafePageAlloc(s: State, va: nat, o: Outcome)
    requires Good(s) && va == s.procs[s.current].registers.eax && !PageAllocIsSafe(s, va) && o == SysPageAlloc(s)
    ensures !o.Spinning? && (o.Running? ==> !Inv(o.s))
  {
    var q := s.current;
    InvFreeUncounted(s);
    AllocFindsFree(s);
    var g := Alloc(s).value;
    var s1 := Take(s, g, q);
    assert ProcessOk(s, q);
    if va / 4096 >= ENTRIES {
      assert DirSlot(va / 4096) >= 1;
      NoTableNoMapping(s1.mem, s.procs[q].pagedir, va, g * 4096);
    } else if va % 4096 == 0 {
      MapOnePage(s1.mem, s.procs[q].pagedir, va, g, PERM_USER_WRITE);
      SetEntryWrites(s, s1.mem, q, va / 4096, MakePte(g, PERM_USER_WRITE));
      if o.Running? {
        WritableOutsideBreaks(s, q, va / 4096, g, o.s);
      }
    }
  }

  /** sys_page_alloc returns in a state that satisfies the invariant exactly when the address is safe. */
  lemma PageAllocKeepsInvExactly(s: State)
    requires Good(s)
    ensures (SysPageAlloc(s).Running? && Inv(SysPageAlloc(s).s))
            <==> PageAllocIsSafe(s, s.procs[s.current].registers.eax)
  {
    var va := s.procs[s.current].registers.eax;
    if PageAllocIsSafe(s, va) {
      PageAllocIsGood(s);
    } else {
      UnsafePageAlloc(s, va, SysPageAlloc(s));
    }
  }

  lemma DispatchIsGood(s: State, registers: Registers, cause: Cause)
    requires Good(s) && s.procs[s.current].registers == registers
    requires Allowed(s, Trap(registers, cause))
    ensures if Stops(s, Trap(registers, cause)) then Dispatch(s, cause) == Halted else GoodOutcome(Dispatch(s, cause))
  {
    match cause
    case SyscallExit =>
      ReleaseTheorem(s, s.current);
      if Release(s, s.current).Some? {
        ReleaseKeepsInv(s, s.current);
        ScheduleIsGood(Release(s, s.current).value);
      }
    case SyscallGetpid =>
      SetEaxKeepsInv(s, s.current, s.current);
    case SyscallYield =>
      ScheduleIsGood(s);
    case Timer =>
      ScheduleIsGood(s);
    case SyscallPageAlloc =>
      PageAllocIsGood(s);
    case SyscallFork =>
      var s', k := ForkTheorem(s);
      assert s'.procs[s.current].state == P_RUNNABLE;
    case PageFault(user) =>
      SameTablesKeepInv(s, SetState(s, s.current, P_BROKEN));
      ScheduleIsGood(SetState(s, s.current, P_BROKEN));
    case _ =>
  }
}
