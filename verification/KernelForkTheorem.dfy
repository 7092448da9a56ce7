/** Fork as a whole: when it succeeds, what it costs, what the child sees, and what failure leaves behind. */
module KernelForkTheorem {
  import opened Wrappers
  import opened Collections
  import opened Machine
  import opened KernelState
  import opened KernelInvariant
  import opened KernelSteps
  import opened KernelFork
  import opened KernelSyscalls

  /** Number of pages that the current process can write, hence that fork must copy. */
  ghost function PagesToCopy(s: State): nat
    requires WellFormed(s)
  {
    |WritableBelow(s, s.current, L.top)|
  }

  /** There is a free process slot, and memory for a directory, a page table and a copy of each writable page. */
  ghost predicate CanFork(s: State)
    requires WellFormed(s)
  {
    FreeSlot(s, 1).Some? && |FreePages(s)| >= 2 + PagesToCopy(s)
  }

  /**
   * Fork comes to a read-only page whose reference count is at the int8_t maximum. It does so when there is a free
   * slot, and memory for a directory, a page table and copies of all writable pages below that page.
   */
  ghost predicate ForkOverflows(s: State)
    requires WellFormed(s)
  {
    FreeSlot(s, 1).Some? && !NoOverflow(s, s.current, |FreePages(s)| - 2)
  }

  /** Page g after f has forked c: in use as before, with one more reference if it is shared, or free, or c's alone. */
  predicate PageAfterFork(s: State, s': State, f: nat, c: nat, g: nat)
    requires WellFormed(s) && WellFormed(s') && f < L.nproc && g < L.npages
  {
    if s.owner[g] == PO_FREE then
      (s'.owner[g] == PO_FREE && s'.refcount[g] == 0) || (s'.owner[g] == c && s'.refcount[g] == 1)
    else
      s'.owner[g] == s.owner[g] && s'.refcount[g] == s.refcount[g] + (if SharesAt(s, f, g) then 1 else 0)
  }

  /** Fork has succeeded with child c. */
  ghost predicate Forked(s: State, s': State, c: nat)
    requires WellFormed(s) && WellFormed(s') && c < L.nproc
  {
    && Fidelity(s, s', c)
    && (forall q :: 0 <= q < L.nproc && q != s.current && q != c ==> s'.procs[q] == s.procs[q])
    && (forall g :: 0 <= g < L.npages ==> PageAfterFork(s, s', s.current, c, g))
    && |FreePages(s')| == |FreePages(s)| - 2 - PagesToCopy(s)
  }

  /**
   * Where fork gives up. Inside its loop that is the writable page for which it finds no memory, two pages having gone
   * to the child's directory and page table and one to each writable page below.
   */
  ghost predicate StopsAt(s: State, k: nat)
    requires WellFormed(s)
  {
    if FreeSlot(s, 1).None? || |FreePages(s)| < 2 then k == L.start else
      UserPage(k) && Writable(Pte(s, s.current, k)) && |WritableBelow(s, s.current, k)| == |FreePages(s)| - 2
  }

  /** Fork has failed, having shared pages below k: the caller learns of it, and all memory is given back. */
  predicate NotForked(s: State, s': State, k: nat)
    requires WellFormed(s) && WellFormed(s')
  {
    var f := s.current;
    && s'.procs[f] == s.procs[f].(registers := s.procs[f].registers.(eax := MINUS_ONE))
    && (forall v :: L.start <= v < L.top ==> View(s', f, v) == View(s, f, v))
    && (forall q :: 0 <= q < L.nproc ==> (s'.procs[q].state == P_FREE <==> s.procs[q].state == P_FREE))
    && OnlySharesAdded(s, s', f, k)
  }

  /** Only pages that were free have been written to. */
  predicate ContentsKept(s: State, s': State)
    requires WellFormed(s) && WellFormed(s')
  {
    forall g :: 0 <= g < L.npages && s.owner[g] != PO_FREE ==> s'.mem[g] == s.mem[g]
  }

  ghost predicate ForkedExactly(s: State, s': State, k: nat)
    requires WellFormed(s)
  {
    && Inv(s') && s'.current == s.current && ContentsKept(s, s')
    && (if CanFork(s) then Forked(s, s', FreeSlot(s, 1).value) else NotForked(s, s', k) && StopsAt(s, k))
    && (forall r :: 1 <= r < L.nproc && Live(s, r) && r != s.current ==> Untouched(s, s', r))
  }

  lemma SetEaxKeepsInv(s: State, q: nat, eax: Register)
    requires Inv(s) && Live(s, q)
    ensures Inv(SetEax(s, q, eax))
    ensures forall r, v :: 0 <= r < L.nproc && 0 <= v < ENTRIES ==> View(SetEax(s, q, eax), r, v) == View(s, r, v)
    ensures FreePages(SetEax(s, q, eax)) == FreePages(s)
  {
    SameTablesKeepInv(s, SetEax(s, q, eax));
  }

  /** Telling the caller that fork has failed is all that happens after the memory is given back. */
  lemma ReportFailure(s: State, s4: State, s': State, k: nat)
    requires WellFormed(s) && WellFormed(s4) && s' == SetEax(s4, s.current, MINUS_ONE)
    requires OnlySharesAdded(s, s4, s.current, k) && Untouched(s, s4, s.current)
    requires forall q :: 0 <= q < L.nproc ==> (s4.procs[q].state == P_FREE <==> s.procs[q].state == P_FREE)
    ensures NotForked(s, s', k)
  {
    assert forall v :: L.start <= v < L.top ==> View(s', s.current, v) == View(s4, s.current, v);
  }

  lemma SetEaxUntouched(s: State, s4: State, q: nat, eax: Register, r: nat)
    requires WellFormed(s) && WellFormed(s4) && q < L.nproc && r < L.nproc && r != q
    requires Untouched(s, s4, r)
    ensures Untouched(s, SetEax(s4, q, eax), r)
  {
    assert forall v :: L.start <= v < L.top ==> View(SetEax(s4, q, eax), r, v) == View(s4, r, v);
  }

  lemma ReleaseUntouched(s: State, p: nat, r: nat, s': State)
    requires Inv(s) && Live(s, p) && Live(s, r) && r != p && Release(s, p) == Some(s')
    ensures Untouched(s, s', r)
  {
    UntouchedIf(s, s', r);
  }

  // What holds when fork's loop has been entered from s through s0

  ghost predicate InLoop(s: State, c: nat, d: nat, t: nat, s0: State)
    requires WellFormed(s)
  {
    && Inv(s) && Runnable(s, s.current) && FreeSlot(s, 1) == Some(c)
    && CanCreate(s, c, d, t, s.procs[s.current].pagedir) && s0 == ForkStart(s, c, d, t)
    && Inv(s0)
  }

  lemma LoopCounts(s: State, c: nat, d: nat, t: nat, s0: State, k: nat)
    requires WellFormed(s) && InLoop(s, c, d, t, s0) && k <= L.top
    ensures |FreePages(s0)| == |FreePages(s)| - 2 && FreePages(s0) <= FreePages(s)
    ensures WritableBelow(s0, s.current, k) == WritableBelow(s, s.current, k)
    ensures forall v :: 0 <= v < ENTRIES ==> Pte(s0, s.current, v) == Pte(s, s.current, v)
  {
    var registers := s.procs[s.current].registers.(eax := 0);
    CreateTakesTwo(s, c, d, t, s.procs[s.current].pagedir, registers, s0);
    CreateKeepsEntries(s, c, d, t, registers, s.procs[s.current].pagedir, s.current, s0);
  }

  /** Processes other than father and child notice nothing up to the end of the loop. */
  lemma LoopUntouched(s: State, c: nat, d: nat, t: nat, s0: State, s3: State, k: nat, r: nat)
    requires WellFormed(s) && InLoop(s, c, d, t, s0) && ForkedBelow(s0, s3, s.current, c, k) && Live(s, r)
    ensures Untouched(s, s3, r)
  {
    var registers := s.procs[s.current].registers.(eax := 0);
    CreateUntouched(s, c, d, t, registers, s.procs[s.current].pagedir, r);
    ForkedUntouched(s0, s3, s.current, c, k, r);
    forall v | L.start <= v < L.top
      ensures View(s3, r, v) == View(s, r, v)
    {
      assert View(s3, r, v) == View(s0, r, v);
    }
  }

  lemma LoopKeepsContents(s: State, c: nat, d: nat, t: nat, s0: State, s3: State, k: nat)
    requires WellFormed(s) && InLoop(s, c, d, t, s0) && ForkedBelow(s0, s3, s.current, c, k)
    ensures ContentsKept(s, s3)
  {
    assert Table(s0, c) == t by {
      CreatedEntries(s, c, d, t, s.procs[s.current].registers.(eax := 0), s.procs[s.current].pagedir);
    }
    forall g | 0 <= g < L.npages && s.owner[g] != PO_FREE
      ensures s3.mem[g] == s.mem[g]
    {
      assert PageSince(s0, s3, s.current, c, k, g);
    }
  }

  /** What has become of page g when all pages of the father are dealt with. */
  lemma PageAfterLoop(s: State, c: nat, d: nat, t: nat, s0: State, s3: State, g: nat)
    requires WellFormed(s) && InLoop(s, c, d, t, s0) && ForkedBelow(s0, s3, s.current, c, L.top) && g < L.npages
    ensures PageAfterFork(s, s3, s.current, c, g)
  {
    var f := s.current;
    LoopCounts(s, c, d, t, s0, L.top);
    assert d == s3.procs[c].pagedir && t == Table(s3, c) by {
      CreatedEntries(s, c, d, t, s.procs[f].registers.(eax := 0), s.procs[f].pagedir);
    }
    ChildPage(s, f, c, d, t, s0, s3, L.top, g);
  }

  lemma LoopForked(s: State, c: nat, d: nat, t: nat, s0: State, s3: State, s': State)
    requires WellFormed(s) && InLoop(s, c, d, t, s0) && ForkedBelow(s0, s3, s.current, c, L.top)
    requires s' == SetEax(s3, s.current, c)
    ensures CanFork(s) && Forked(s, s', c)
  {
    var f := s.current;
    assert Fidelity(s, s', c) by { ForkedFidelity(s, c, d, t, s0, s3); }
    assert FreePages(s') == FreePages(s3);
    assert |FreePages(s3)| == |FreePages(s)| - 2 - PagesToCopy(s) by { LoopCounts(s, c, d, t, s0, L.top); }
    forall g | 0 <= g < L.npages
      ensures PageAfterFork(s, s', f, c, g)
    {
      PageAfterLoop(s, c, d, t, s0, s3, g);
    }
  }

  lemma LoopSucceeded(s: State, c: nat, d: nat, t: nat, s0: State, s3: State, s': State)
    requires WellFormed(s) && InLoop(s, c, d, t, s0) && ForkedBelow(s0, s3, s.current, c, L.top)
    requires s' == SetEax(s3, s.current, c)
    ensures ForkedExactly(s, s', L.top)
  {
    var f := s.current;
    assert Inv(s') by { SetEaxKeepsInv(s3, f, c); }
    assert CanFork(s) && Forked(s, s', c) by { LoopForked(s, c, d, t, s0, s3, s'); }
    assert ContentsKept(s, s') by { LoopKeepsContents(s, c, d, t, s0, s3, L.top); }
    forall r | 1 <= r < L.nproc && Live(s, r) && r != f
      ensures Untouched(s, s', r)
    {
      LoopUntouched(s, c, d, t, s0, s3, L.top, r);
      SetEaxUntouched(s, s3, f, c, r);
    }
  }

  /** The loop stops for lack of memory only when fork needs more pages than are free. */
  lemma TooFewPages(s: State, c: nat, d: nat, t: nat, s0: State, s3: State, k: nat)
    requires WellFormed(s) && InLoop(s, c, d, t, s0) && ForkedBelow(s0, s3, s.current, c, k)
    requires k < L.top && FreePages(s3) == {} && Writable(Pte(s0, s.current, k))
    ensures !CanFork(s) && StopsAt(s, k)
  {
    LoopCounts(s, c, d, t, s0, k);
    WritableBelowStep(s, s.current, k);
    SubsetSize(WritableBelow(s, s.current, k + 1), WritableBelow(s, s.current, L.top));
  }

  lemma AbortUntouched(s: State, c: nat, d: nat, t: nat, s0: State, s3: State, k: nat, s4: State, r: nat)
    requires WellFormed(s) && InLoop(s, c, d, t, s0) && ForkedBelow(s0, s3, s.current, c, k)
    requires Release(s3, c) == Some(s4) && Live(s, r)
    ensures Untouched(s, s4, r)
  {
    LoopUntouched(s, c, d, t, s0, s3, k, r);
    ReleaseUntouched(s3, c, r, s4);
    forall v | L.start <= v < L.top
      ensures View(s4, r, v) == View(s, r, v)
    {
      assert View(s4, r, v) == View(s3, r, v);
    }
  }

  /** After a failed fork the same process slots are free as before. */
  lemma AbortFreesSlot(s: State, c: nat, d: nat, t: nat, s0: State, s3: State, k: nat, s4: State)
    requires WellFormed(s) && InLoop(s, c, d, t, s0) && ForkedBelow(s0, s3, s.current, c, k)
    requires Release(s3, c) == Some(s4)
    ensures forall q :: 0 <= q < L.nproc ==> (s4.procs[q].state == P_FREE <==> s.procs[q].state == P_FREE)
  {
    forall q | 0 <= q < L.nproc
      ensures s4.procs[q].state == P_FREE <==> s.procs[q].state == P_FREE
    {
      assert s3.procs[q] == s0.procs[q];
      assert s4.procs[q] == if q == c then s3.procs[c].(state := P_FREE) else s3.procs[q];
    }
  }

  lemma LoopFailed(s: State, c: nat, d: nat, t: nat, s0: State, s3: State, k: nat, s4: State, s': State)
    requires WellFormed(s) && InLoop(s, c, d, t, s0) && ForkedBelow(s0, s3, s.current, c, k)
    requires !CanFork(s) && StopsAt(s, k)
    requires Release(s3, c) == Some(s4) && OnlySharesAdded(s, s4, s.current, k)
    requires s' == SetEax(s4, s.current, MINUS_ONE)
    ensures ForkedExactly(s, s', k)
  {
    var f := s.current;
    assert Inv(s') by {
      ReleaseKeepsInv(s3, c);
      SetEaxKeepsInv(s4, f, MINUS_ONE);
    }
    assert ContentsKept(s, s') by { LoopKeepsContents(s, c, d, t, s0, s3, k); }
    assert NotForked(s, s', k) by {
      AbortUntouched(s, c, d, t, s0, s3, k, s4, f);
      AbortFreesSlot(s, c, d, t, s0, s3, k, s4);
      ReportFailure(s, s4, s', k);
    }
    forall r | 1 <= r < L.nproc && Live(s, r) && r != f
      ensures Untouched(s, s', r)
    {
      AbortUntouched(s, c, d, t, s0, s3, k, s4, r);
      SetEaxUntouched(s, s4, f, MINUS_ONE, r);
    }
  }

  lemma FinishCopied(f: nat, c: nat, s3: State)
    requires WellFormed(s3) && s3.current == f && c < L.nproc && s3.procs[f].state == P_RUNNABLE
    ensures FinishFork(f, c, Copied(s3)) == Running(SetEax(s3, f, c))
  {
  }

  lemma FinishOutOfMemory(f: nat, c: nat, s3: State, s4: State)
    requires WellFormed(s3) && s3.current == f && c < L.nproc && c != f && s3.procs[f].state == P_RUNNABLE
    requires Release(s3, c) == Some(s4)
    ensures FinishFork(f, c, OutOfMemory(s3)) == Running(SetEax(s4, f, MINUS_ONE))
  {
  }

  /** How fork ends once it has entered its loop. */
  lemma ForkFromLoop(s: State, f: nat, c: nat, d: nat, t: nat, s0: State, k: nat, r: CopyResult) returns (s': State)
    requires WellFormed(s) && f == s.current && InLoop(s, c, d, t, s0)
    requires k <= L.top && LoopEnded(s0, f, c, k, r)
    ensures FinishFork(f, c, r) == Running(s') && ForkedExactly(s, s', k)
  {
    if r.Copied? {
      s' := SetEax(r.s, f, c);
      FinishCopied(f, c, r.s);
      LoopSucceeded(s, c, d, t, s0, r.s, s');
    } else {
      var s4 := AbortFromLoop(s, f, c, d, t, s0, r.s, k);
      s' := SetEax(s4, f, MINUS_ONE);
      FinishOutOfMemory(f, c, r.s, s4);
      TooFewPages(s, c, d, t, s0, r.s, k);
      LoopFailed(s, c, d, t, s0, r.s, k, s4, s');
    }
  }

  lemma AbortFromLoop(s: State, f: nat, c: nat, d: nat, t: nat, s0: State, s3: State, k: nat) returns (s4: State)
    requires WellFormed(s) && f == s.current && InLoop(s, c, d, t, s0) && ForkedBelow(s0, s3, f, c, k)
    ensures Release(s3, c) == Some(s4) && OnlySharesAdded(s, s4, f, k)
  {
    LoopCounts(s, c, d, t, s0, k);
    assert d == s3.procs[c].pagedir && t == Table(s3, c) by {
      CreatedEntries(s, c, d, t, s.procs[f].registers.(eax := 0), s.procs[f].pagedir);
    }
    AbortReleases(s, f, c, d, t, s0, s3, k);
    s4 := Release(s3, c).value;
  }

  // Three ways through the body of fork

  lemma ForkWithoutSlot(s: State)
    requires WellFormed(s) && FreeSlot(s, 1).None? && s.procs[s.current].state == P_RUNNABLE
    ensures SysFork(s) == Running(SetEax(s, s.current, MINUS_ONE))
  {
  }

  lemma ForkWithoutPages(s: State, f: nat, c: nat, s1: State, s2: State)
    requires WellFormed(s) && f == s.current && FreeSlot(s, 1) == Some(c)
    requires CopyPagedir(NewChild(s, c), s.procs[f].pagedir, c) == (s1, None) && Release(s1, c) == Some(s2)
    requires s2.current == f && s2.procs[f].state == P_RUNNABLE
    ensures SysFork(s) == Running(SetEax(s2, f, MINUS_ONE))
  {
  }

  lemma ForkWithPages(s: State, f: nat, c: nat, s1: State, d: nat, s0: State)
    requires WellFormed(s) && f == s.current && FreeSlot(s, 1) == Some(c)
    requires CopyPagedir(NewChild(s, c), s.procs[f].pagedir, c) == (s1, Some(d))
    requires s0 == SetProc(s1, c, s1.procs[c].(pagedir := d))
    ensures SysFork(s) == FinishFork(f, c, ForkPages(s0, f, c, L.start))
  {
  }

  /** State s2 differs from s at most in process slots that are unused, and stay so. */
  predicate SameButUnused(s: State, s2: State)
    requires WellFormed(s) && WellFormed(s2)
  {
    && s2.mem == s.mem && s2.owner == s.owner && s2.refcount == s.refcount && s2.current == s.current
    && (forall q :: 0 <= q < L.nproc ==>
         if s.procs[q].state == P_FREE then s2.procs[q].state == P_FREE else s2.procs[q] == s.procs[q])
  }

  lemma RefusedState(s: State) returns (s2: State)
    requires Inv(s) && Runnable(s, s.current)
    requires FreeSlot(s, 1).None? || |FreePages(s)| < 2
    ensures WellFormed(s2) && SameButUnused(s, s2)
    ensures SysFork(s) == Running(SetEax(s2, s.current, MINUS_ONE))
  {
    var slot := FreeSlot(s, 1);
    if slot.None? {
      s2 := s;
      ForkWithoutSlot(s);
    } else {
      var c := slot.value;
      var s1 := CopyPagedir(NewChild(s, c), s.procs[s.current].pagedir, c).0;
      AbortEarly(s, c, s1);
      s2 := Release(s1, c).value;
      ForkWithoutPages(s, s.current, c, s1, s2);
    }
  }

  lemma SameButUnusedUntouched(s: State, s2: State, r: nat)
    requires Inv(s) && WellFormed(s2) && SameButUnused(s, s2) && Live(s, r)
    ensures Untouched(s, s2, r)
  {
    UntouchedIf(s, s2, r);
  }

  /** Fork fails at once when there is no slot, or no memory for a directory and a page table. */
  lemma ForkRefused(s: State) returns (s': State)
    requires Inv(s) && Runnable(s, s.current)
    requires FreeSlot(s, 1).None? || |FreePages(s)| < 2
    ensures SysFork(s) == Running(s') && ForkedExactly(s, s', L.start)
  {
    var f := s.current;
    var s2 := RefusedState(s);
    s' := SetEax(s2, f, MINUS_ONE);
    RefusedExactly(s, f, s2, s');
  }

  lemma RefusedExactly(s: State, f: nat, s2: State, s': State)
    requires Inv(s) && Runnable(s, f) && f == s.current && WellFormed(s2) && SameButUnused(s, s2)
    requires FreeSlot(s, 1).None? || |FreePages(s)| < 2
    requires s' == SetEax(s2, f, MINUS_ONE)
    ensures ForkedExactly(s, s', L.start)
  {
    assert Inv(s') by {
      SameTablesKeepInv(s, s2);
      SetEaxKeepsInv(s2, f, MINUS_ONE);
    }
    assert NotForked(s, s', L.start) by {
      SameButUnusedUntouched(s, s2, f);
      ReportFailure(s, s2, s', L.start);
    }
    forall r | 1 <= r < L.nproc && Live(s, r) && r != f
      ensures Untouched(s, s', r)
    {
      SameButUnusedUntouched(s, s2, r);
      SetEaxUntouched(s, s2, f, MINUS_ONE, r);
    }
  }

  /**
   * Fork, unless it comes to a reference count that overflows, always returns to the caller with the invariant intact.
   * It succeeds exactly when there is a free slot and enough memory; the child then is a perfect copy, exactly
   * 2 + PagesToCopy free pages have become the child's, and each shared page has one more reference. Otherwise no page
   * changes owner, and the only trace are references that have been added to the shared pages below the page k at which
   * memory ran out. Other processes never notice, and only pages that were free are written to.
   */
  lemma ForkTheorem(s: State) returns (s': State, k: nat)
    requires Inv(s) && Runnable(s, s.current) && !ForkOverflows(s)
    ensures k <= L.top && SysFork(s) == Running(s') && ForkedExactly(s, s', k)
  {
    if FreeSlot(s, 1).None? || |FreePages(s)| < 2 {
      s' := ForkRefused(s);
      k := L.start;
    } else {
      var f, c, d, t, s0, v, v', first, r := ForkEnters(s);
      k := LoopOutcome(s, f, c, d, t, s0, v, v', first, r);
      s' := ForkFromLoop(s, f, c, d, t, s0, k, r);
    }
  }

  /** From page v on, `first` is the outcome of the loop's first turn, and r that of the whole loop. */
  predicate LoopRuns(s0: State, f: nat, c: nat, v: nat, v': nat, first: CopyResult, r: CopyResult) {
    && WellFormed(s0) && f < L.nproc && c < L.nproc && v < L.top && v' == v + 1
    && first == ForkPage(s0, f, c, v)
    && r == if first.Copied? then ForkPages(first.s, f, c, v') else first
  }

  /** With a slot and two pages fork enters its loop; `first` is its first turn there, and r how the loop ends. */
  lemma ForkEnters(s: State)
    returns (f: nat, c: nat, d: nat, t: nat, s0: State, v: nat, v': nat, first: CopyResult, r: CopyResult)
    requires Inv(s) && Runnable(s, s.current)
    requires FreeSlot(s, 1).Some? && |FreePages(s)| >= 2
    ensures f == s.current && InLoop(s, c, d, t, s0) && v == L.start && v' == v + 1
    ensures LoopRuns(s0, f, c, v, v', first, r)
    ensures !r.CopyPanic? ==> r.s.current == f
    ensures SysFork(s) == FinishFork(f, c, r)
  {
    f, c, v, v' := s.current, FreeSlot(s, 1).value, L.start, L.start + 1;
    var src := s.procs[f].pagedir;
    d, t := ForkGetsPages(s, c);
    s0 := ForkStart(s, c, d, t);
    assert Inv(s0) by { CreateKeepsInv(s, c, d, t, s.procs[f].registers.(eax := 0), src); }
    r := ForkPages(s0, f, c, v);
    first := ForkPagesUnfold(s0, f, c, v, v', r);
    ForkWithPages(s, f, c, CopyPagedir(NewChild(s, c), src, c).0, d, s0);
  }

  lemma LoopOutcome(s: State, f: nat, c: nat, d: nat, t: nat, s0: State, v: nat, v': nat,
                    first: CopyResult, r: CopyResult)
    returns (k: nat)
    requires WellFormed(s) && f == s.current && InLoop(s, c, d, t, s0) && !ForkOverflows(s)
    requires v == L.start && LoopRuns(s0, f, c, v, v', first, r)
    ensures k <= L.top && LoopEnded(s0, f, c, k, r)
  {
    assert ForkedBelow(s0, s0, f, c, v) && NoOverflow(s0, f, |FreePages(s0)|) by { LoopStarts(s, f, c, d, t, s0); }
    k := ForkPagesOutcome(s0, s0, f, c, v, v', first, r);
  }

  lemma LoopStarts(s: State, f: nat, c: nat, d: nat, t: nat, s0: State)
    requires WellFormed(s) && f == s.current && InLoop(s, c, d, t, s0) && !ForkOverflows(s)
    ensures ForkedBelow(s0, s0, f, c, L.start) && NoOverflow(s0, f, |FreePages(s0)|)
  {
    var src, registers := s.procs[f].pagedir, s.procs[f].registers.(eax := 0);
    forall v | UserPage(v) && Reaches(s0, f, |FreePages(s0)|, v)
      ensures !OverflowsAt(s0, f, v)
    {
      CreateKeepsOverflow(s, f, c, d, t, src, registers, s0, v);
      CreateKeepsReach(s, f, c, d, t, src, registers, s0, v);
    }
    assert ForkedBelow(s0, s0, f, c, L.start) by { ForkLoopStarts(s, f, c, d, t, src, registers, s0); }
  }
}
