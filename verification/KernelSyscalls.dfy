/** The system calls as a whole: when they fail, and exactly what they leave behind. */
module KernelSyscalls {
  import opened Wrappers
  import opened Machine
  import opened KernelState
  import opened KernelInvariant
  import opened KernelFrames
  import opened KernelSteps
  import opened KernelFork

  predicate Runnable(s: State, q: nat)
    requires WellFormed(s)
  {
    1 <= q < L.nproc && s.procs[q].state == P_RUNNABLE
  }

  // What a process can see

  datatype PageView = NoAccess | Access(write: bool, content: Page)

  /** What process q sees at page v of the user area. */
  function View(s: State, q: nat, v: nat): PageView
    requires WellFormed(s) && q < L.nproc && v < ENTRIES
  {
    var e := Pte(s, q, v);
    if Readable(e) then Access(e.write, ReadPage(s.mem, e.frame)) else NoAccess
  }

  /** Process r has the same registers and state and sees the same memory in s and s'. */
  predicate Untouched(s: State, s': State, r: nat)
    requires WellFormed(s) && WellFormed(s') && r < L.nproc
  {
    && s'.procs[r] == s.procs[r]
    && (forall v :: L.start <= v < L.top ==> View(s', r, v) == View(s, r, v))
  }

  /** A process is untouched by a change that leaves the pages it uses alone. */
  lemma UntouchedIf(s: State, s': State, r: nat)
    requires Inv(s) && WellFormed(s') && Live(s, r) && s'.procs[r] == s.procs[r]
    requires forall g :: 0 <= g < L.npages && r in Users(s, g) ==> s'.mem[g] == s.mem[g]
    ensures SameTranslation(s, s', r) && Untouched(s, s', r)
  {
    TablesArePrivate(s, r);
    assert ProcessOk(s, r);
    TranslationKept(s, s', r);
    forall v | L.start <= v < L.top
      ensures View(s', r, v) == View(s, r, v)
    {
      var g := Pte(s, r, v).frame;
      if Readable(Pte(s, r, v)) {
        assert MapsAt(s, r, v, g);
        MappedIsOwned(s, r, g);
        assert r in Users(s, g);
      }
    }
  }

  // Fork begins

  /** The state in which fork's loop starts: slot c has a directory d and a page table t of its own. */
  function ForkStart(s: State, c: nat, d: nat, t: nat): State
    requires WellFormed(s) && c < L.nproc && d < L.npages && t < L.npages
  {
    Created(s, c, d, t, s.procs[s.current].registers.(eax := 0), s.procs[s.current].pagedir)
  }

  /** The pages of a live process below the user area are mapped as a new process needs them. */
  lemma CanCreateFrom(s: State, f: nat, c: nat, d: nat, t: nat)
    requires Inv(s) && Live(s, f) && 1 <= c < L.nproc && s.procs[c].state == P_FREE
    requires d in FreePages(s) && t in FreePages(s) && d != t
    ensures CanCreate(s, c, d, t, s.procs[f].pagedir)
  {
    assert ProcessOk(s, f);
    forall v | 0 <= v < L.start
      ensures LowEntryOk(s, s.procs[f].pagedir, v)
    {
      assert EntryOk(s, f, v, Pte(s, f, v));
    }
  }

  /** With two free pages, fork gets its directory and page table and enters its loop. */
  lemma ForkGetsPages(s: State, c: nat) returns (d: nat, t: nat)
    requires Inv(s) && Runnable(s, s.current) && 1 <= c < L.nproc && s.procs[c].state == P_FREE
    requires |FreePages(s)| >= 2
    ensures CanCreate(s, c, d, t, s.procs[s.current].pagedir)
    ensures var (s1, dir) := CopyPagedir(NewChild(s, c), s.procs[s.current].pagedir, c);
      dir == Some(d) && SetProc(s1, c, s1.procs[c].(pagedir := d)) == ForkStart(s, c, d, t)
  {
    var n := NewChild(s, c);
    InvFreeUncounted(s);
    assert FreePages(n) == FreePages(s);
    d, t := CopyPagedirOutcome(n, s.procs[s.current].pagedir, c);
    CanCreateFrom(s, s.current, c, d, t);
  }

  /** Creating a process leaves all others alone. */
  lemma CreateUntouched(s: State, c: nat, d: nat, t: nat, registers: Registers, src: nat, r: nat)
    requires Inv(s) && CanCreate(s, c, d, t, src) && Live(s, r)
    ensures Untouched(s, Created(s, c, d, t, registers, src), r)
    ensures SameTranslation(s, Created(s, c, d, t, registers, src), r)
  {
    FreeHasNoUsers(s, d);
    FreeHasNoUsers(s, t);
    UntouchedIf(s, Created(s, c, d, t, registers, src), r);
  }

  lemma CreateKeepsEntries(s: State, c: nat, d: nat, t: nat, registers: Registers, src: nat, r: nat, s0: State)
    requires Inv(s) && Live(s, r) && CanCreate(s, c, d, t, src) && s0 == Created(s, c, d, t, registers, src)
    ensures forall v :: 0 <= v < ENTRIES ==> Pte(s0, r, v) == Pte(s, r, v)
  {
    CreateKeepsOthers(s, c, d, t, registers, src, r);
    assert ProcessOk(s, r);
    TranslationKept(s, s0, r);
  }

  lemma CreateTakesTwo(s: State, c: nat, d: nat, t: nat, src: nat, registers: Registers, s0: State)
    requires Inv(s) && CanCreate(s, c, d, t, src) && s0 == Created(s, c, d, t, registers, src)
    ensures FreePages(s0) == FreePages(s) - {d, t} && |FreePages(s0)| == |FreePages(s)| - 2
  {
    assert FreePages(s0) == FreePages(s) - {d, t};
  }

  lemma CreateKeepsOverflow(s: State, f: nat, c: nat, d: nat, t: nat, src: nat, registers: Registers, s0: State, v: nat)
    requires Inv(s) && Live(s, f) && CanCreate(s, c, d, t, src) && s0 == Created(s, c, d, t, registers, src)
    requires UserPage(v)
    ensures OverflowsAt(s0, f, v) <==> OverflowsAt(s, f, v)
  {
    CreateKeepsEntries(s, c, d, t, registers, src, f, s0);
    if SharesAt(s, f, v) { EntryKinds(s, f, v); }
  }

  lemma CreateKeepsReach(s: State, f: nat, c: nat, d: nat, t: nat, src: nat, registers: Registers, s0: State, v: nat)
    requires Inv(s) && Live(s, f) && CanCreate(s, c, d, t, src) && s0 == Created(s, c, d, t, registers, src)
    requires UserPage(v)
    ensures Reaches(s0, f, |FreePages(s0)|, v) <==> Reaches(s, f, |FreePages(s)| - 2, v)
  {
    assert |FreePages(s0)| == |FreePages(s)| - 2 by { CreateTakesTwo(s, c, d, t, src, registers, s0); }
    CreateKeepsEntries(s, c, d, t, registers, src, f, s0);
    SameWritable(s, s0, f, v);
  }

  lemma SameWritable(s: State, s0: State, f: nat, v: nat)
    requires WellFormed(s) && WellFormed(s0) && f < L.nproc && v <= L.top
    requires forall w :: 0 <= w < ENTRIES ==> Pte(s0, f, w) == Pte(s, f, w)
    ensures WritableBelow(s0, f, v) == WritableBelow(s, f, v)
  {
  }

  lemma ForkLoopStarts(s: State, f: nat, c: nat, d: nat, t: nat, src: nat, registers: Registers, s0: State)
    requires Inv(s) && Live(s, f) && CanCreate(s, c, d, t, src) && s0 == Created(s, c, d, t, registers, src)
    ensures ForkedBelow(s0, s0, f, c, L.start)
  {
    CreateKeepsInv(s, c, d, t, registers, src);
    assert forall v :: L.start <= v < L.top ==> Pte(s0, c, v) == ZERO by {
      CreatedEntries(s, c, d, t, registers, src);
    }
    assert ProcessOk(s0, f);
    assert WritableBelow(s0, f, L.start) == {};
  }

  // Fork ends well

  /** The child is a copy of the father, and the father is as it was before, but for their return values. */
  predicate Fidelity(s: State, s': State, c: nat)
    requires WellFormed(s) && WellFormed(s') && c < L.nproc
  {
    var f := s.current;
    && s'.procs[c].registers == s.procs[f].registers.(eax := 0)
    && s'.procs[c].state == P_RUNNABLE
    && s'.procs[f] == s.procs[f].(registers := s.procs[f].registers.(eax := c))
    && (forall v :: L.start <= v < L.top ==> View(s', c, v) == View(s, f, v))
    && (forall v :: L.start <= v < L.top ==> View(s', f, v) == View(s, f, v))
  }

  /** Processes other than the child do not notice fork's loop. */
  lemma ForkedUntouched(s0: State, s: State, f: nat, c: nat, v: nat, r: nat)
    requires Inv(s0) && ForkedBelow(s0, s, f, c, v) && Live(s0, r) && Live(s0, c) && r != c
    ensures Untouched(s0, s, r)
  {
    TablesArePrivate(s0, c);
    forall g | 0 <= g < L.npages && r in Users(s0, g)
      ensures s.mem[g] == s0.mem[g]
    {
      assert PageSince(s0, s, f, c, v, g);
      if s0.owner[g] == PO_FREE {
        FreeHasNoUsers(s0, g);
      }
    }
    UntouchedIf(s0, s, r);
  }

  lemma ForkedFidelity(s: State, c: nat, d: nat, t: nat, s0: State, s3: State)
    requires Inv(s) && Runnable(s, s.current) && c < L.nproc
    requires CanCreate(s, c, d, t, s.procs[s.current].pagedir) && s0 == ForkStart(s, c, d, t)
    requires ForkedBelow(s0, s3, s.current, c, L.top)
    ensures Fidelity(s, SetEax(s3, s.current, c), c)
  {
    var f := s.current;
    var s' := SetEax(s3, f, c);
    CreateUntouched(s, c, d, t, s.procs[f].registers.(eax := 0), s.procs[f].pagedir, f);
    CreateKeepsInv(s, c, d, t, s.procs[f].registers.(eax := 0), s.procs[f].pagedir);
    ForkedUntouched(s0, s3, f, c, L.top, f);
    forall v | L.start <= v < L.top
      ensures View(s', f, v) == View(s, f, v) && View(s', c, v) == View(s, f, v)
    {
      assert View(s', f, v) == View(s3, f, v) && View(s', c, v) == View(s3, c, v);
      assert View(s3, f, v) == View(s0, f, v) && View(s0, f, v) == View(s, f, v);
      assert CopiedAt(s3, f, c, v);
    }
  }

  // Fork fails

  /** Nothing has changed owner; pages below k that f shares have one more reference than before. */
  predicate OnlySharesAdded(s: State, s': State, f: nat, k: nat)
    requires WellFormed(s) && WellFormed(s') && f < L.nproc
  {
    && s'.owner == s.owner
    && (forall g :: 0 <= g < L.npages ==>
         s'.refcount[g] == s.refcount[g] + (if g < k && SharesAt(s, f, g) then 1 else 0))
  }

  /** All that a child holds while fork is under way are pages that were free before. */
  lemma ChildPage(s: State, f: nat, c: nat, d: nat, t: nat, s0: State, s3: State, k: nat, g: nat)
    requires Inv(s) && Live(s, f) && 1 <= c < L.nproc && s.procs[c].state == P_FREE && f != c && g < L.npages
    requires CanCreate(s, c, d, t, s.procs[f].pagedir)
    requires WellFormed(s0) && s0.owner == s.owner[d := c][t := c] && s0.refcount == s.refcount[d := 1][t := 1]
    requires forall v :: 0 <= v < ENTRIES ==> Pte(s0, f, v) == Pte(s, f, v)
    requires ForkedBelow(s0, s3, f, c, k) && d == s3.procs[c].pagedir && t == Table(s3, c)
    ensures s3.owner[g] == c ==> s3.refcount[g] == 1 && s.owner[g] == PO_FREE && s.refcount[g] == 0
    ensures s3.owner[g] != c ==>
              && s3.owner[g] == s.owner[g]
              && (s.owner[g] == PO_FREE ==> s3.refcount[g] == 0 == s.refcount[g])
              && s3.refcount[g] == s.refcount[g] + (if g < k && SharesAt(s, f, g) then 1 else 0)
    ensures SharesAt(s, f, g) ==> s.owner[g] != PO_FREE
  {
    assert PageOk(s, g) && PageOk(s3, g) && PageSince(s0, s3, f, c, k, g);
    assert ProcessOk(s3, c);
    if SharesAt(s, f, g) { EntryKinds(s, f, g); }
  }

  lemma AbortReleases(s: State, f: nat, c: nat, d: nat, t: nat, s0: State, s3: State, k: nat)
    requires Inv(s) && Live(s, f) && 1 <= c < L.nproc && s.procs[c].state == P_FREE && f != c
    requires CanCreate(s, c, d, t, s.procs[f].pagedir)
    requires WellFormed(s0) && s0.owner == s.owner[d := c][t := c] && s0.refcount == s.refcount[d := 1][t := 1]
    requires forall v :: 0 <= v < ENTRIES ==> Pte(s0, f, v) == Pte(s, f, v)
    requires ForkedBelow(s0, s3, f, c, k) && d == s3.procs[c].pagedir && t == Table(s3, c)
    ensures Release(s3, c).Some?
    ensures OnlySharesAdded(s, Release(s3, c).value, f, k)
  {
    var b := SetState(s3, c, P_BLOCKED);
    forall g | 0 <= g < L.npages
      ensures !Stuck(b, c, g)
      ensures AfterRelease(b, c, g) ==
                (s.refcount[g] + (if g < k && SharesAt(s, f, g) then 1 else 0), s.owner[g])
    {
      ChildPage(s, f, c, d, t, s0, s3, k, g);
    }
  }

  /** Fork that cannot get a directory and a page table gives back what it got. */
  lemma AbortEarly(s: State, c: nat, s1: State)
    requires Inv(s) && Runnable(s, s.current) && 1 <= c < L.nproc && s.procs[c].state == P_FREE
    requires |FreePages(s)| < 2
    requires s1 == CopyPagedir(NewChild(s, c), s.procs[s.current].pagedir, c).0
    ensures CopyPagedir(NewChild(s, c), s.procs[s.current].pagedir, c).1.None?
    ensures Release(s1, c).Some?
    ensures var s2 := Release(s1, c).value;
      && s2.owner == s.owner && s2.refcount == s.refcount && s2.mem == s.mem && s2.current == s.current
      && s2.procs == s.procs[c := s2.procs[c]] && s2.procs[c].state == P_FREE
  {
    var n := NewChild(s, c);
    InvFreeUncounted(s);
    assert FreePages(n) == FreePages(s);
    var d, _ := CopyPagedirOutcome(n, s.procs[s.current].pagedir, c);
    assert s1 == n || (d in FreePages(s) && s1 == Take(n, d, c));
    var b := SetState(s1, c, P_BLOCKED);
    forall g | 0 <= g < L.npages
      ensures !Stuck(b, c, g) && AfterRelease(b, c, g) == (s.refcount[g], s.owner[g])
    {
      assert PageOk(s, g);
    }
    var s2 := Release(s1, c).value;
    assert s2.owner == s.owner && s2.refcount == s.refcount;
  }
}
