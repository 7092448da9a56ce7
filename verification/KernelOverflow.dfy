/** The one way in which fork breaks the invariant: a reference count that wraps around, which nothing repairs. */
module KernelOverflow {
  import opened Wrappers
  import opened Collections
  import opened Machine
  import opened KernelState
  import opened KernelInvariant
  import opened KernelFrames
  import opened KernelSteps
  import opened KernelFork
  import opened KernelSyscalls
  import opened KernelForkTheorem

  /** The pages that the rest of fork's loop must not touch: the tables of father and child, and page x. */
  predicate Kept(s0: State, f: nat, c: nat, x: nat, g: nat)
    requires WellFormed(s0) && f < L.nproc && c < L.nproc
  {
    || g == s0.procs[f].pagedir || g == Table(s0, f)
    || g == s0.procs[c].pagedir || g == Table(s0, c) || g == x
  }

  /** The count of page x has wrapped around since s0, while the tables are still in place. */
  predicate Wrapped(s0: State, s: State, f: nat, c: nat, x: nat)
    requires WellFormed(s0) && f < L.nproc && c < L.nproc
  {
    && WellFormed(s) && x < L.npages && s.refcount[x] < 0
    && s.procs == s0.procs && s.current == s0.current
    && (forall g :: 0 <= g < L.npages && Kept(s0, f, c, x, g) ==> s.owner[g] == s0.owner[g])
    && SameTranslation(s0, s, f)
    && ReadPage(s.mem, s0.procs[c].pagedir) == ReadPage(s0.mem, s0.procs[c].pagedir)
  }

  /** State s0, in which the loop turns to page x of f, whose count is at its maximum. */
  ghost predicate AtOverflow(s0: State, f: nat, c: nat, x: nat) {
    Inv(s0) && Live(s0, f) && Live(s0, c) && f != c && UserPage(x) && OverflowsAt(s0, f, x)
    && s0.owner[x] != c
  }

  lemma KeptAreOwned(s0: State, f: nat, c: nat, x: nat, g: nat)
    requires AtOverflow(s0, f, c, x) && Kept(s0, f, c, x, g)
    ensures g < L.npages && s0.owner[g] > 0
  {
    assert ProcessOk(s0, f) && ProcessOk(s0, c);
    EntryKinds(s0, f, x);
  }

  /** The child's page table is none of the other pages to be kept. */
  lemma ChildTableIsApart(s0: State, f: nat, c: nat, x: nat)
    requires AtOverflow(s0, f, c, x)
    ensures s0.procs[f].pagedir != Table(s0, c) && Table(s0, f) != Table(s0, c) && s0.procs[c].pagedir != Table(s0, c)
    ensures Table(s0, c) != x
  {
    assert ProcessOk(s0, f) && ProcessOk(s0, c);
  }

  /** The turn that wraps the count around. */
  lemma TurnWraps(s0: State, f: nat, c: nat, x: nat)
    requires AtOverflow(s0, f, c, x)
    ensures ForkPage(s0, f, c, x).Copied? && Wrapped(s0, ForkPage(s0, f, c, x).s, f, c, x)
  {
    EntryKinds(s0, f, x);
    assert ProcessOk(s0, c);
    SetEntryWrites(s0, s0.mem, c, x, MakePte(x, PERM_USER));
    ChildTableIsApart(s0, f, c, x);
    KeptAreOwned(s0, f, c, x, s0.procs[f].pagedir);
    KeptAreOwned(s0, f, c, x, Table(s0, f));
  }

  /** An entry written into the child's table. */
  lemma WriteKeepsWrapped(s0: State, s: State, f: nat, c: nat, x: nat, v: nat, e: Word, s': State)
    requires AtOverflow(s0, f, c, x) && Wrapped(s0, s, f, c, x) && v < ENTRIES
    requires s' == s.(mem := Write(s.mem, Table(s0, c), v, e))
    ensures SetEntry(s.mem, s.procs[c].pagedir, 0, v, e) == Some(s'.mem)
    ensures Wrapped(s0, s', f, c, x)
  {
    assert ProcessOk(s0, c);
    ChildTableIsApart(s0, f, c, x);
    var pde := Read(s.mem, s.procs[c].pagedir, 0);
    assert pde == Read(s0.mem, s0.procs[c].pagedir, 0);
    assert DirSlot(pde.frame) == 0;
  }

  /** A free page is given to the child and filled. */
  lemma TakeKeepsWrapped(s0: State, s: State, f: nat, c: nat, x: nat, g: nat, content: Page)
    requires AtOverflow(s0, f, c, x) && Wrapped(s0, s, f, c, x)
    requires g < L.npages && s.owner[g] == PO_FREE
    ensures Wrapped(s0, Take(s, g, c).(mem := s.mem[g := content]), f, c, x)
  {
    assert !Kept(s0, f, c, x, g) by {
      if Kept(s0, f, c, x, g) {
        KeptAreOwned(s0, f, c, x, g);
      }
    }
  }

  lemma TurnKeepsWrapped(s0: State, s: State, f: nat, c: nat, x: nat, v: nat)
    requires AtOverflow(s0, f, c, x) && Wrapped(s0, s, f, c, x) && x < v < L.top
    ensures !ForkPage(s, f, c, v).CopyPanic? && Wrapped(s0, ForkPage(s, f, c, v).s, f, c, x)
  {
    var e := Pte(s, f, v);
    assert ProcessOk(s0, f);
    TranslationKept(s0, s, f);
    EntryKinds(s0, f, v);
    if Writable(e) {
      if Alloc(s).Some? {
        var g := Alloc(s).value;
        var content := ReadPage(s.mem, e.frame);
        var s1 := Take(s, g, c).(mem := s.mem[g := content]);
        TakeKeepsWrapped(s0, s, f, c, x, g, content);
        WriteKeepsWrapped(s0, s1, f, c, x, v, MakePte(g, PERM_USER_WRITE),
                          s1.(mem := Write(s1.mem, Table(s0, c), v, MakePte(g, PERM_USER_WRITE))));
      }
    } else if Readable(e) {
      WriteKeepsWrapped(s0, s, f, c, x, v, MakePte(v, PERM_USER),
                        s.(mem := Write(s.mem, Table(s0, c), v, MakePte(v, PERM_USER))));
    }
  }

  lemma {:induction false} LoopKeepsWrapped(s0: State, s: State, f: nat, c: nat, x: nat, v: nat)
    requires AtOverflow(s0, f, c, x) && Wrapped(s0, s, f, c, x) && x < v <= L.top
    ensures !ForkPages(s, f, c, v).CopyPanic? && Wrapped(s0, ForkPages(s, f, c, v).s, f, c, x)
    decreases L.top - v
  {
    if v < L.top {
      TurnKeepsWrapped(s0, s, f, c, x, v);
      var r := ForkPage(s, f, c, v);
      if r.Copied? {
        LoopKeepsWrapped(s0, r.s, f, c, x, v + 1);
      }
    }
  }

  /** Fork ends in this way with a state that breaks the invariant, if it ends in a state at all. */
  ghost predicate EndsBroken(f: nat, c: nat, r: CopyResult)
    requires f < L.nproc && c < L.nproc
    requires !r.CopyPanic? ==> WellFormed(r.s) && r.s.current == f
  {
    var o := FinishFork(f, c, r);
    !o.Spinning? && (o.Running? ==> !Inv(o.s))
  }

  /** Neither success nor giving the child's memory back repairs the count. */
  lemma FinishStaysWrapped(s0: State, f: nat, c: nat, x: nat, r: CopyResult)
    requires AtOverflow(s0, f, c, x) && s0.current == f
    requires !r.CopyPanic? && Wrapped(s0, r.s, f, c, x)
    ensures EndsBroken(f, c, r)
  {
    KeptAreOwned(s0, f, c, x, x);
    if FinishFork(f, c, r).Running? {
      var s' := FinishFork(f, c, r).s;
      assert s'.refcount[x] < 0;
      assert !PageOk(s', x);
    }
  }

  /** Before the child is created it owns nothing, and afterwards nothing that is shared. */
  predicate OwnsUnshared(s: State, c: nat)
    requires WellFormed(s)
  {
    forall g :: 0 <= g < L.npages && s.owner[g] == c ==> s.refcount[g] == 1
  }

  lemma OverflowIsStillThere(s0: State, s: State, f: nat, c: nat, v: nat)
    requires WellFormed(s0) && ForkedBelow(s0, s, f, c, v) && OwnsUnshared(s0, c) && c != 0
    requires FreeUncounted(s0) && v < L.top && OverflowsAt(s0, f, v)
    ensures AtOverflow(s, f, c, v)
  {
    assert Pte(s0, f, v) == Pte(s, f, v) by { TranslationKept(s0, s, f); }
    assert PageSince(s0, s, f, c, v, v);
    EntryKinds(s, f, v);
  }

  lemma EndsAfterOverflow(s: State, f: nat, c: nat, v: nat, v': nat, first: CopyResult, r: CopyResult)
    requires AtOverflow(s, f, c, v) && s.current == f && v' == v + 1
    requires first == ForkPage(s, f, c, v)
    requires r == if first.Copied? then ForkPages(first.s, f, c, v') else first
    ensures !r.CopyPanic? && r.s.current == f && EndsBroken(f, c, r)
  {
    TurnWraps(s, f, c, v);
    LoopKeepsWrapped(s, first.s, f, c, v, v');
    FinishStaysWrapped(s, f, c, v, r);
  }

  /** There is memory for every page below the one that overflows. */
  lemma TurnBeforeOverflow(s0: State, s: State, f: nat, c: nat, v: nat, v': nat, x: nat, first: CopyResult)
    requires WellFormed(s0) && ForkedBelow(s0, s, f, c, v) && v' == v + 1
    requires v < x < L.top && Reaches(s0, f, |FreePages(s0)|, x) && !OverflowsAt(s0, f, v)
    requires first == ForkPage(s, f, c, v)
    ensures first.Copied? && ForkedBelow(s0, first.s, f, c, v')
  {
    ForkPageStep(s0, s, f, c, v, v');
    if Writable(Pte(s0, f, v)) {
      WritableBelowStep(s0, f, v);
      SubsetSize(WritableBelow(s0, f, v + 1), WritableBelow(s0, f, x));
    }
  }

  /** The loop comes to the overflow, and ends with the count wrapped around. */
  lemma {:induction false} LoopOverflows(s0: State, s: State, f: nat, c: nat, v: nat, v': nat, x: nat,
                                         first: CopyResult, r: CopyResult)
    requires WellFormed(s0) && ForkedBelow(s0, s, f, c, v) && OwnsUnshared(s0, c) && c != 0 && s0.current == f
    requires FreeUncounted(s0)
    requires v <= x < L.top && OverflowsAt(s0, f, x) && Reaches(s0, f, |FreePages(s0)|, x)
    requires v' == v + 1 && first == ForkPage(s, f, c, v)
    requires r == if first.Copied? then ForkPages(first.s, f, c, v') else first
    ensures !r.CopyPanic? && r.s.current == f && EndsBroken(f, c, r)
    decreases x - v
  {
    if OverflowsAt(s0, f, v) {
      OverflowIsStillThere(s0, s, f, c, v);
      EndsAfterOverflow(s, f, c, v, v', first, r);
    } else {
      TurnBeforeOverflow(s0, s, f, c, v, v', x, first);
      var v'' := v' + 1;
      var second := ForkPagesUnfold(first.s, f, c, v', v'', r);
      LoopOverflows(s0, first.s, f, c, v', v'', x, second, r);
    }
  }

  /** Once fork comes to an overflow, it either stops the kernel or leaves a state that breaks the invariant. */
  lemma OverflowBreaks(s: State, o: Outcome)
    requires Inv(s) && Runnable(s, s.current) && ForkOverflows(s) && o == SysFork(s)
    ensures !o.Spinning? && (o.Running? ==> !Inv(o.s))
  {
    var x: nat :| UserPage(x) && Reaches(s, s.current, |FreePages(s)| - 2, x) && OverflowsAt(s, s.current, x);
    OverflowBreaksAt(s, o, x);
  }

  lemma OverflowBreaksAt(s: State, o: Outcome, x: nat)
    requires Inv(s) && Runnable(s, s.current) && o == SysFork(s)
    requires FreeSlot(s, 1).Some? && UserPage(x)
    requires Reaches(s, s.current, |FreePages(s)| - 2, x) && OverflowsAt(s, s.current, x)
    ensures !o.Spinning? && (o.Running? ==> !Inv(o.s))
  {
    var f, c, d, t, s0, v, v', first, r := ForkEnters(s);
    LoopBreaks(s, f, c, d, t, s0, x, v, v', first, r, o);
  }

  /** Stated as an implication, so that the loop need not be taken apart where this is used. */
  lemma LoopBreaks(s: State, f: nat, c: nat, d: nat, t: nat, s0: State, x: nat, v: nat, v': nat,
                   first: CopyResult, r: CopyResult, o: Outcome)
    requires WellFormed(s) && f == s.current && f < L.nproc && c < L.nproc
    requires UserPage(x) && v == L.start
    requires !r.CopyPanic? ==> WellFormed(r.s) && r.s.current == f
    requires o == FinishFork(f, c, r)
    ensures InLoop(s, c, d, t, s0) && LoopRuns(s0, f, c, v, v', first, r)
            && Reaches(s, f, |FreePages(s)| - 2, x) && OverflowsAt(s, f, x)
            ==> !o.Spinning? && (o.Running? ==> !Inv(o.s))
  {
    if InLoop(s, c, d, t, s0) && LoopRuns(s0, f, c, v, v', first, r)
       && Reaches(s, f, |FreePages(s)| - 2, x) && OverflowsAt(s, f, x) {
      StartsAtOverflow(s, f, c, d, t, s0, x);
      LoopOverflows(s0, s0, f, c, v, v', x, first, r);
    }
  }

  lemma StartsAtOverflow(s: State, f: nat, c: nat, d: nat, t: nat, s0: State, x: nat)
    requires WellFormed(s) && InLoop(s, c, d, t, s0) && f == s.current
    requires UserPage(x) && Reaches(s, f, |FreePages(s)| - 2, x) && OverflowsAt(s, f, x)
    ensures ForkedBelow(s0, s0, f, c, L.start) && FreeUncounted(s0) && OwnsUnshared(s0, c) && c != 0
    ensures OverflowsAt(s0, f, x) && Reaches(s0, f, |FreePages(s0)|, x)
  {
    var src, registers := s.procs[f].pagedir, s.procs[f].registers.(eax := 0);
    assert ForkedBelow(s0, s0, f, c, L.start) by { ForkLoopStarts(s, f, c, d, t, src, registers, s0); }
    assert OverflowsAt(s0, f, x) by { CreateKeepsOverflow(s, f, c, d, t, src, registers, s0, x); }
    assert Reaches(s0, f, |FreePages(s0)|, x) by { CreateKeepsReach(s, f, c, d, t, src, registers, s0, x); }
    assert OwnsUnshared(s0, c) && c != 0 by { ChildOwnsUnshared(s, c, d, t, src, registers, s0); }
    InvFreeUncounted(s0);
  }

  lemma ChildOwnsUnshared(s: State, c: nat, d: nat, t: nat, src: nat, registers: Registers, s0: State)
    requires Inv(s) && CanCreate(s, c, d, t, src) && s0 == Created(s, c, d, t, registers, src)
    ensures OwnsUnshared(s0, c) && c != 0
  {
    forall g | 0 <= g < L.npages && s0.owner[g] == c
      ensures s0.refcount[g] == 1
    {
      assert PageOk(s, g);
    }
  }

  /** Fork returns in a state that satisfies the invariant exactly when it comes to no overflow. */
  lemma ForkKeepsInvExactly(s: State)
    requires Inv(s) && Runnable(s, s.current)
    ensures (SysFork(s).Running? && Inv(SysFork(s).s)) <==> !ForkOverflows(s)
  {
    if ForkOverflows(s) {
      OverflowBreaks(s, SysFork(s));
    } else {
      var s', k := ForkTheorem(s);
    }
  }
}
