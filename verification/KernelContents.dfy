/** What a program finds in its memory when it starts, and which pages loading it leaves alone. */
module KernelContents {
  import opened Wrappers
  import opened Machine
  import opened KernelState
  import opened KernelInvariant
  import opened KernelFrames
  import opened KernelFork
  import opened KernelSteps
  import opened KernelSyscalls
  import opened KernelTheorems
  import opened KernelRuns
  import opened KernelTraps
  import opened KernelBoot
  import opened KernelLoading

  // The three passes over a segment

  /** Owners and counts have changed for the n pages from v on at most, contents for these and p's page table. */
  predicate ChangesOnly(s: State, s': State, p: nat, v: nat, n: nat)
    requires WellFormed(s) && WellFormed(s') && p < L.nproc
  {
    forall g :: 0 <= g < L.npages && !InRange(g, v, n) ==>
      s'.owner[g] == s.owner[g] && s'.refcount[g] == s.refcount[g] && (g != Table(s, p) ==> s'.mem[g] == s.mem[g])
  }

  predicate TakenFor(s: State, p: nat, v: nat, n: nat)
    requires WellFormed(s)
  {
    forall g :: 0 <= g < L.npages && InRange(g, v, n) ==> s.owner[g] == p && s.refcount[g] == 1
  }

  lemma OneTaken(s: State, p: nat, v: nat, s1: State)
    requires Based(s, p) && PageAllocAt(s, p, v) == Some(s1)
    ensures ChangesOnly(s, s1, p, v, 1) && TakenFor(s1, p, v, 1)
  {
    AllocOne(s, p, v, Some(s1));
    SetEntryWrites(s, s.mem, p, v, MakePte(v, PERM_USER_WRITE));
  }

  lemma MoreTaken(s: State, s1: State, s': State, p: nat, v: nat, v': nat, n: nat)
    requires WellFormed(s) && WellFormed(s1) && WellFormed(s') && p < L.nproc && Table(s1, p) == Table(s, p)
    requires ChangesOnly(s, s1, p, v, 1) && TakenFor(s1, p, v, 1) && v' == v + 1
    requires ChangesOnly(s1, s', p, v', n) && TakenFor(s', p, v', n)
    ensures ChangesOnly(s, s', p, v, n + 1) && TakenFor(s', p, v, n + 1)
  {
  }

  lemma {:induction false} AllocTakes(s: State, p: nat, v: nat, n: nat, s': State)
    requires Based(s, p) && AllocSegment(s, p, v, n) == Some(s')
    ensures ChangesOnly(s, s', p, v, n) && TakenFor(s', p, v, n)
    decreases n
  {
    if n != 0 {
      var v', one := v + 1, PageAllocAt(s, p, v);
      AllocOne(s, p, v, one);
      OneTaken(s, p, v, one.value);
      AllocTakes(one.value, p, v', n - 1, s');
      MoreTaken(s, one.value, s', p, v, v', n - 1);
    }
  }

  lemma {:induction false} FillPuts(s: State, v: nat, contents: seq<Page>, s': State)
    requires WellFormed(s) && (contents == [] || v + |contents| <= L.npages) && s' == FillSegment(s, v, contents)
    ensures s'.owner == s.owner && s'.refcount == s.refcount
    ensures forall g :: 0 <= g < L.npages ==>
              s'.mem[g] == if InRange(g, v, |contents|) then contents[g - v] else s.mem[g]
    decreases contents
  {
    if contents != [] {
      FillPuts(s.(mem := s.mem[v := contents[0]]), v + 1, contents[1..], s');
    }
  }

  lemma {:induction false} ProtectTouches(s: State, p: nat, v: nat, n: nat, s': State)
    requires Based(s, p) && (n == 0 || v + n <= L.npages) && ProtectSegment(s, p, v, n) == Some(s')
    ensures ChangesOnly(s, s', p, 0, 0)
    decreases n
  {
    if n != 0 {
      var e := MakePte(v, PERM_USER);
      var s1 := s.(mem := Write(s.mem, Table(s, p), v, e));
      EntryWritten(s, p, v, e, s1);
      ProtectTouches(s1, p, v + 1, n - 1, s');
    }
  }

  // A segment

  function UserPerm(writable: bool): Word {
    if writable then PERM_USER_WRITE else PERM_USER
  }

  /** Page w is process p's alone, lies at its own address with the given access, and has the given content. */
  predicate Holds(s: State, p: nat, w: nat, content: Page, writable: bool)
    requires WellFormed(s) && p < L.nproc
  {
    && w < L.npages && w < ENTRIES && s.owner[w] == p && s.refcount[w] == 1 && w != Table(s, p)
    && s.mem[w] == content && Pte(s, p, w) == MakePte(w, UserPerm(writable))
  }

  predicate ContentsAt(s: State, v: nat, contents: seq<Page>)
    requires WellFormed(s)
  {
    forall g :: 0 <= g < L.npages && InRange(g, v, |contents|) ==> s.mem[g] == contents[g - v]
  }

  /** From s to s' the segment has been loaded, with the given access, and all else that p has mapped is as it was. */
  ghost predicate Loaded(s: State, s': State, p: nat, segment: Segment, writable: bool)
    requires Based(s, p)
  {
    var v, n := segment.first, |segment.contents|;
    && Based(s', p) && Apart(s', p, v, n) && (n == 0 || v + n <= L.npages) && PagesOf(segment) <= FreePages(s)
    && Entered(s, s', p, v, n, UserPerm(writable))
    && ChangesOnly(s, s', p, v, n) && TakenFor(s', p, v, n) && ContentsAt(s', v, segment.contents)
  }

  lemma EnteredThenKept(s: State, s1: State, s2: State, p: nat, v: nat, n: nat, perm: Word, other: Word)
    requires Based(s, p) && Based(s1, p) && WellFormed(s2) && perm.frame == 0 && other.frame == 0
    requires Entered(s, s1, p, v, n, perm) && Entered(s1, s2, p, 0, 0, other)
    ensures Entered(s, s2, p, v, n, perm)
  {
  }

  lemma EnteredAgain(s: State, s1: State, s2: State, p: nat, v: nat, n: nat, perm: Word, other: Word)
    requires Based(s, p) && Based(s1, p) && WellFormed(s2) && perm.frame == 0 && other.frame == 0
    requires Entered(s, s1, p, v, n, perm) && Entered(s1, s2, p, v, n, other)
    ensures Entered(s, s2, p, v, n, other)
  {
  }

  lemma FillChanges(s: State, s1: State, s2: State, p: nat, v: nat, contents: seq<Page>)
    requires WellFormed(s) && WellFormed(s1) && p < L.nproc && (contents == [] || v + |contents| <= L.npages)
    requires ChangesOnly(s, s1, p, v, |contents|) && TakenFor(s1, p, v, |contents|)
    requires s2 == FillSegment(s1, v, contents)
    ensures ChangesOnly(s, s2, p, v, |contents|) && TakenFor(s2, p, v, |contents|) && ContentsAt(s2, v, contents)
  {
    FillPuts(s1, v, contents, s2);
  }

  lemma FilledIsLoaded(s: State, p: nat, segment: Segment, s1: State, s2: State)
    requires Based(s, p) && AllocSegment(s, p, segment.first, |segment.contents|) == Some(s1)
    requires s2 == FillSegment(s1, segment.first, segment.contents)
    ensures Loaded(s, s2, p, segment, true)
  {
    var v, n := segment.first, |segment.contents|;
    AllocAll(s, p, v, n, Some(s1));
    FreeIsApart(s, p, v, n);
    FillAll(s1, p, v, segment.contents, s2);
    assert Entered(s, s2, p, v, n, PERM_USER_WRITE) by {
      EnteredThenKept(s, s1, s2, p, v, n, PERM_USER_WRITE, PERM_USER);
    }
    assert ChangesOnly(s, s2, p, v, n) && TakenFor(s2, p, v, n) && ContentsAt(s2, v, segment.contents) by {
      AllocTakes(s, p, v, n, s1);
      FillChanges(s, s1, s2, p, v, segment.contents);
    }
  }

  lemma ProtectChanges(s: State, s1: State, s2: State, p: nat, v: nat, contents: seq<Page>)
    requires WellFormed(s) && WellFormed(s1) && WellFormed(s2) && p < L.nproc && Table(s1, p) == Table(s, p)
    requires Apart(s1, p, v, |contents|) && ChangesOnly(s1, s2, p, 0, 0)
    requires ChangesOnly(s, s1, p, v, |contents|) && TakenFor(s1, p, v, |contents|) && ContentsAt(s1, v, contents)
    ensures ChangesOnly(s, s2, p, v, |contents|) && TakenFor(s2, p, v, |contents|) && ContentsAt(s2, v, contents)
  {
  }

  lemma ProtectedIsLoaded(s: State, p: nat, segment: Segment, s1: State, s': State)
    requires Based(s, p) && Loaded(s, s1, p, segment, true)
    requires ProtectSegment(s1, p, segment.first, |segment.contents|) == Some(s')
    ensures Loaded(s, s', p, segment, false)
  {
    var v, n := segment.first, |segment.contents|;
    ProtectAll(s1, p, v, n, Some(s'));
    assert Entered(s, s', p, v, n, PERM_USER) by {
      EnteredAgain(s, s1, s', p, v, n, PERM_USER_WRITE, PERM_USER);
    }
    assert ChangesOnly(s, s', p, v, n) && TakenFor(s', p, v, n) && ContentsAt(s', v, segment.contents) by {
      ProtectTouches(s1, p, v, n, s');
      ProtectChanges(s, s1, s', p, v, segment.contents);
    }
  }

  /** A segment is loaded as it stands in the program's image. */
  lemma SegmentLoaded(s: State, p: nat, segment: Segment, s': State)
    requires Based(s, p) && CopySegment(s, p, segment) == Some(s')
    ensures Loaded(s, s', p, segment, segment.writable)
  {
    var s1 := AllocSegment(s, p, segment.first, |segment.contents|).value;
    var s2 := FillSegment(s1, segment.first, segment.contents);
    FilledIsLoaded(s, p, segment, s1, s2);
    if !segment.writable {
      ProtectedIsLoaded(s, p, segment, s2, s');
    }
  }

  lemma LoadedHolds(s: State, s': State, p: nat, segment: Segment, j: nat)
    requires Based(s, p) && Loaded(s, s', p, segment, segment.writable) && j < |segment.contents|
    ensures Holds(s', p, segment.first + j, segment.contents[j], segment.writable)
  {
    assert InRange(segment.first + j, segment.first, |segment.contents|);
  }

  /** What process p holds it still holds when another segment has been loaded. */
  lemma StillHolds(s: State, s': State, p: nat, segment: Segment, w: nat, content: Page, writable: bool)
    requires Based(s, p) && Loaded(s, s', p, segment, segment.writable) && Holds(s, p, w, content, writable)
    ensures Holds(s', p, w, content, writable)
  {
    assert InRange(w, segment.first, |segment.contents|) ==> w in PagesOf(segment);
  }

  // A program

  /** The program's pages are in place. */
  predicate HoldsAll(s: State, p: nat, segments: seq<Segment>)
    requires WellFormed(s) && p < L.nproc
  {
    forall i, j :: 0 <= i < |segments| && 0 <= j < |segments[i].contents| ==>
      Holds(s, p, segments[i].first + j, segments[i].contents[j], segments[i].writable)
  }

  /** Pages that were in use, but for the page table of p, have the owner, count and content that they had. */
  predicate KeepsTaken(s: State, s': State, p: nat)
    requires WellFormed(s) && WellFormed(s') && p < L.nproc
  {
    forall g :: 0 <= g < L.npages && s.owner[g] != PO_FREE && g != Table(s, p) ==> SamePage(s, s', g)
  }

  predicate SamePage(s: State, s': State, g: nat)
    requires WellFormed(s) && WellFormed(s') && g < L.npages
  {
    s'.owner[g] == s.owner[g] && s'.refcount[g] == s.refcount[g] && s'.mem[g] == s.mem[g]
  }

  predicate OutsideAll(segments: seq<Segment>, w: nat) {
    forall i :: 0 <= i < |segments| ==> !InRange(w, segments[i].first, |segments[i].contents|)
  }

  /** From s to s' the program has been loaded, and all else is as it was. */
  ghost predicate LoadedAll(s: State, s': State, p: nat, segments: seq<Segment>)
    requires Based(s, p)
  {
    && Based(s', p) && s'.procs == s.procs && s'.current == s.current && Table(s', p) == Table(s, p)
    && HoldsAll(s', p, segments) && KeepsTaken(s, s', p)
    && (forall w, content, writable :: Holds(s, p, w, content, writable) ==> Holds(s', p, w, content, writable))
    && (forall w :: 0 <= w < ENTRIES && OutsideAll(segments, w) ==> Pte(s', p, w) == Pte(s, p, w))
  }

  lemma KeepsTakenTwice(s: State, s1: State, s2: State, p: nat, segment: Segment)
    requires Based(s, p) && Loaded(s, s1, p, segment, segment.writable) && WellFormed(s2)
    requires KeepsTaken(s1, s2, p)
    ensures KeepsTaken(s, s2, p)
  {
    forall g | 0 <= g < L.npages && s.owner[g] != PO_FREE && g != Table(s, p)
      ensures SamePage(s, s2, g)
    {
      assert InRange(g, segment.first, |segment.contents|) ==> g in PagesOf(segment);
      assert SamePage(s1, s2, g);
    }
  }

  lemma HoldsAllFrom(s1: State, s': State, s: State, p: nat, segments: seq<Segment>)
    requires segments != [] && Based(s, p) && Loaded(s, s1, p, segments[0], segments[0].writable)
    requires LoadedAll(s1, s', p, segments[1..])
    ensures HoldsAll(s', p, segments)
  {
    forall i, j | 0 <= i < |segments| && 0 <= j < |segments[i].contents|
      ensures Holds(s', p, segments[i].first + j, segments[i].contents[j], segments[i].writable)
    {
      if i == 0 {
        LoadedHolds(s, s1, p, segments[0], j);
      } else {
        assert segments[i] == segments[1..][i - 1];
      }
    }
  }

  lemma LoadedOneMore(s: State, s1: State, s': State, p: nat, segments: seq<Segment>)
    requires segments != [] && Based(s, p) && Loaded(s, s1, p, segments[0], segments[0].writable)
    requires LoadedAll(s1, s', p, segments[1..])
    ensures LoadedAll(s, s', p, segments)
  {
    HoldsAllFrom(s1, s', s, p, segments);
    KeepsTakenTwice(s, s1, s', p, segments[0]);
    forall w, content, writable | Holds(s, p, w, content, writable)
      ensures Holds(s', p, w, content, writable)
    {
      StillHolds(s, s1, p, segments[0], w, content, writable);
    }
    forall w | 0 <= w < ENTRIES && OutsideAll(segments, w)
      ensures Pte(s', p, w) == Pte(s, p, w)
    {
      assert !InRange(w, segments[0].first, |segments[0].contents|);
      assert OutsideAll(segments[1..], w);
    }
  }

  lemma {:induction false} ProgramLoaded(s: State, p: nat, segments: seq<Segment>, s': State)
    requires Based(s, p) && LoadSegments(s, p, segments) == Some(s')
    ensures LoadedAll(s, s', p, segments)
    decreases segments
  {
    if segments != [] {
      var s1 := CopySegment(s, p, segments[0]).value;
      SegmentLoaded(s, p, segments[0], s1);
      ProgramLoaded(s1, p, segments[1..], s');
      LoadedOneMore(s, s1, s', p, segments);
    }
  }

  /** The stack page comes on top; g is the page that it takes. */
  lemma StackPlaced(s: State, p: nat, s': State) returns (g: nat)
    requires Based(s, p) && GiveStack(s, p) == Some(s')
    ensures g in FreePages(s) && s'.procs == s.procs && s'.current == s.current && KeepsTaken(s, s', p)
    ensures s'.owner[g] == p && s'.refcount[g] == 1
    ensures forall w :: 0 <= w < ENTRIES ==>
              Pte(s', p, w) == if w == L.top - 1 then MakePte(g, PERM_USER_WRITE) else Pte(s, p, w)
    ensures forall w, content, writable :: w != L.top - 1 && Holds(s, p, w, content, writable) ==>
              Holds(s', p, w, content, writable)
  {
    g := Alloc(s).value;
    var e := MakePte(g, PERM_USER_WRITE);
    EntryWritten(s, p, L.top - 1, e, Take(s, g, p).(mem := Write(s.mem, Table(s, p), L.top - 1, e)));
  }

  lemma HeldIsSeen(s: State, p: nat, w: nat, content: Page, writable: bool)
    requires WellFormed(s) && p < L.nproc && Holds(s, p, w, content, writable)
    ensures View(s, p, w) == Access(writable, content)
  {
  }

  /**
   * The new process's tables, d and t, were free; nothing is mapped in the user area, and other pages are as before.
   */
  predicate FreshTables(s: State, s0: State, p: nat, d: nat, t: nat, registers: Registers)
    requires WellFormed(s) && WellFormed(s0) && p < L.nproc
  {
    && d < L.npages && t < L.npages && s.owner[d] == PO_FREE && s.owner[t] == PO_FREE && Table(s0, p) == t
    && s0.current == s.current && s0.procs == s.procs[p := Proc(p, registers, P_RUNNABLE, d)]
    && (forall g :: 0 <= g < L.npages && g != d && g != t ==> SamePage(s, s0, g))
    && (forall w :: L.start <= w < L.top ==> Pte(s0, p, w) == ZERO)
  }

  lemma TablesAreFresh(s: State, p: nat, registers: Registers, d: nat, t: nat, s0: State)
    requires Inv(s) && KernelMapped(s) && 1 <= p < L.nproc && s.procs[p].state == P_FREE
    requires d in FreePages(s) && t in FreePages(s) && d != t && s0 == Created(s, p, d, t, registers, L.kernelDir)
    ensures FreshTables(s, s0, p, d, t, registers)
  {
    CanCreateFromKernel(s, p, d, t);
    CreatedEntries(s, p, d, t, registers, L.kernelDir);
    assert s0.mem[d] == DirectoryFor(t);
  }

  /** Process p has its program, a stack page of its own, and nothing else. */
  predicate InPlace(s: State, p: nat, segments: seq<Segment>)
    requires WellFormed(s) && p < L.nproc
  {
    && (forall i, j :: 0 <= i < |segments| && 0 <= j < |segments[i].contents| && segments[i].first + j != L.top - 1 ==>
         Holds(s, p, segments[i].first + j, segments[i].contents[j], segments[i].writable))
    && Writable(Pte(s, p, L.top - 1)) && Private(s, p, Pte(s, p, L.top - 1).frame)
    && (forall w :: L.start <= w < L.top - 1 && OutsideAll(segments, w) ==> View(s, p, w) == NoAccess)
  }

  lemma SetupInPlace(s0: State, p: nat, segments: seq<Segment>, s1: State, s': State)
    requires Based(s0, p) && (forall w :: L.start <= w < L.top ==> Pte(s0, p, w) == ZERO)
    requires LoadSegments(s0, p, segments) == Some(s1) && GiveStack(s1, p) == Some(s')
    ensures InPlace(s', p, segments) && s'.procs == s0.procs && s'.current == s0.current && KeepsTaken(s0, s', p)
  {
    ProgramLoaded(s0, p, segments, s1);
    var g := StackPlaced(s1, p, s');
    forall i, j | 0 <= i < |segments| && 0 <= j < |segments[i].contents| && segments[i].first + j != L.top - 1
      ensures Holds(s', p, segments[i].first + j, segments[i].contents[j], segments[i].writable)
    {
      assert Holds(s1, p, segments[i].first + j, segments[i].contents[j], segments[i].writable);
    }
    KeepsTakenThen(s0, s1, s', p);
  }

  lemma KeepsTakenThen(s0: State, s1: State, s': State, p: nat)
    requires WellFormed(s0) && WellFormed(s1) && WellFormed(s') && p < L.nproc && Table(s1, p) == Table(s0, p)
    requires KeepsTaken(s0, s1, p) && KeepsTaken(s1, s', p)
    ensures KeepsTaken(s0, s', p)
  {
    forall g | 0 <= g < L.npages && s0.owner[g] != PO_FREE && g != Table(s0, p)
      ensures SamePage(s0, s', g)
    {
      assert SamePage(s0, s1, g) && SamePage(s1, s', g);
    }
  }

  lemma FreshThenKept(s: State, s0: State, s': State, p: nat, d: nat, t: nat, registers: Registers)
    requires WellFormed(s) && WellFormed(s0) && WellFormed(s') && p < L.nproc
    requires FreshTables(s, s0, p, d, t, registers) && KeepsTaken(s0, s', p)
    ensures forall g :: 0 <= g < L.npages && s.owner[g] != PO_FREE ==> SamePage(s, s', g)
  {
    forall g | 0 <= g < L.npages && s.owner[g] != PO_FREE
      ensures SamePage(s, s', g)
    {
      assert SamePage(s, s0, g) && SamePage(s0, s', g);
    }
  }

  /**
   * The process starts with its program: each page of each segment is the process's alone and shows the content that
   * the image gives it, writable exactly if the segment is; above it there is a stack page, which it can write, and
   * nothing else. Pages that were in use before belong to whom they belonged, with the content that they had.
   */
  lemma ProgramInPlace(s: State, p: nat, registers: Registers, segments: seq<Segment>, s': State)
    requires Inv(s) && KernelMapped(s) && 1 <= p < L.nproc && s.procs[p].state == P_FREE
    requires ProcessSetup(s, p, registers, segments) == Some(s')
    ensures s'.current == s.current
    ensures s'.procs == s.procs[p := Proc(p, registers, P_RUNNABLE, s'.procs[p].pagedir)]
    ensures InPlace(s', p, segments)
    ensures forall g :: 0 <= g < L.npages && s.owner[g] != PO_FREE ==> SamePage(s, s', g)
  {
    var n := SetProc(s, p, Proc(p, registers, P_RUNNABLE, s.procs[p].pagedir));
    var d, t := TablesTaken(s, p, registers, n);
    var s0 := Created(s, p, d.value, t.value, registers, L.kernelDir);
    SetupStarts(s, p, registers, d.value, t.value, s0);
    TablesAreFresh(s, p, registers, d.value, t.value, s0);
    SetupInPlace(s0, p, segments, LoadSegments(s0, p, segments).value, s');
    FreshThenKept(s, s0, s', p, d.value, t.value, registers);
  }

  lemma InPlaceIsSeen(s: State, p: nat, segments: seq<Segment>, i: nat, j: nat)
    requires WellFormed(s) && p < L.nproc && InPlace(s, p, segments)
    requires i < |segments| && j < |segments[i].contents| && segments[i].first + j != L.top - 1
    ensures segments[i].first + j < ENTRIES
    ensures View(s, p, segments[i].first + j) == Access(segments[i].writable, segments[i].contents[j])
  {
    var w, content, writable := segments[i].first + j, segments[i].contents[j], segments[i].writable;
    assert Holds(s, p, w, content, writable);
    HeldIsSeen(s, p, w, content, writable);
  }

  /** In the process's own words: what it sees at the addresses of its program. */
  lemma ProgramIsSeen(s: State, p: nat, registers: Registers, segments: seq<Segment>, s': State, i: nat, j: nat)
    requires Inv(s) && KernelMapped(s) && 1 <= p < L.nproc && s.procs[p].state == P_FREE
    requires ProcessSetup(s, p, registers, segments) == Some(s')
    requires i < |segments| && j < |segments[i].contents| && segments[i].first + j != L.top - 1
    ensures segments[i].first + j < ENTRIES
    ensures View(s', p, segments[i].first + j) == Access(segments[i].writable, segments[i].contents[j])
  {
    assert InPlace(s', p, segments) by { ProgramInPlace(s, p, registers, segments, s'); }
    InPlaceIsSeen(s', p, segments, i, j);
  }

  // The kernel's own pages

  /** Setting up a process takes no page away from the kernel. */
  lemma SetupLeavesKernel(s: State, p: nat, registers: Registers, segments: seq<Segment>, s': State)
    requires Inv(s) && KernelMapped(s) && 1 <= p < L.nproc && s.procs[p].state == P_FREE
    requires ProcessSetup(s, p, registers, segments) == Some(s') && KernelHasItsPages(s)
    ensures KernelHasItsPages(s')
  {
    ProgramInPlace(s, p, registers, segments, s');
    forall g | 0 <= g < L.npages && (IsKernelPage(g) || IsReserved(g))
      ensures s'.owner[g] == (if IsReserved(g) then PO_RESERVED else PO_KERNEL) && s'.refcount[g] == 1
    {
      assert SamePage(s, s', g);
    }
  }

  /**
   * However long programs run, the kernel keeps its image, its stack and the reserved pages, and never writes to its
   * image or stack on a program's behalf.
   */
  lemma RunLeavesKernel(s: State, es: seq<Event>)
    requires Good(s) && AllowedAlong(s, es) && KernelHasItsPages(s)
    ensures !Run(s, es).Halted? ==>
              && KernelHasItsPages(Run(s, es).s)
              && (forall g :: 0 <= g < L.npages && IsKernelPage(g) ==> Run(s, es).s.mem[g] == s.mem[g])
  {
    if !Run(s, es).Halted? {
      forall g | 0 <= g < L.npages && (IsKernelPage(g) || IsReserved(g))
        ensures StaysUnowned(s, Run(s, es).s, g)
      {
        RunLeavesUnowned(s, es, g);
      }
    }
  }

  /** No address of the user area ever leads a process to one of these pages. */
  lemma NoWayToTheKernel(s: State, q: nat, v: nat)
    requires Inv(s) && KernelHasItsPages(s) && Live(s, q) && UserPage(v) && Readable(Pte(s, q, v))
    ensures !IsKernelPage(Pte(s, q, v).frame) && !IsReserved(Pte(s, q, v).frame)
  {
    UserMappingsAreHarmless(s, q, v, q);
  }

  /** Over whole runs: whatever a process maps in the user area is neither the kernel's nor reserved. */
  lemma KernelIsNeverMapped(s: State, es: seq<Event>, q: nat, v: nat)
    requires Good(s) && AllowedAlong(s, es) && KernelHasItsPages(s) && !Run(s, es).Halted?
    requires Live(Run(s, es).s, q) && UserPage(v) && Readable(Pte(Run(s, es).s, q, v))
    ensures !IsKernelPage(Pte(Run(s, es).s, q, v).frame) && !IsReserved(Pte(Run(s, es).s, q, v).frame)
  {
    RunIsGood(s, es);
    RunLeavesKernel(s, es);
    NoWayToTheKernel(Run(s, es).s, q, v);
  }
}
