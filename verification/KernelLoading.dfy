/**
 * Setting up a process, exactly: which programs fit into memory, and that the invariant survives if and only if all of
 * the program lies in the user area.
 */
module KernelLoading {
  import opened Wrappers
  import opened Machine
  import opened KernelState
  import opened KernelInvariant
  import opened KernelFrames
  import opened KernelSteps
  import opened KernelFork
  import opened KernelTheorems
  import opened KernelBoot

  predicate InRange(w: nat, v: nat, n: nat) {
    v <= w < v + n
  }

  ghost function Range(v: nat, n: nat): set<nat> {
    set w: nat | w < v + n && InRange(w, v, n)
  }

  ghost function PagesOf(segment: Segment): set<nat> {
    Range(segment.first, |segment.contents|)
  }

  // Which programs fit

  /** The segments' pages are free and apart. */
  ghost predicate Loadable(free: set<nat>, segments: seq<Segment>)
    decreases segments
  {
    segments == []
    || (PagesOf(segments[0]) <= free && Loadable(free - PagesOf(segments[0]), segments[1..]))
  }

  ghost function Remaining(free: set<nat>, segments: seq<Segment>): set<nat>
    decreases segments
  {
    if segments == [] then free else Remaining(free - PagesOf(segments[0]), segments[1..])
  }

  /**
   * There is memory for a program of process p: the two lowest free pages for its tables, the pages that its segments
   * are linked to, which must be free, and one more page for its stack.
   */
  ghost predicate FitsMemory(s: State, p: nat, segments: seq<Segment>)
    requires WellFormed(s)
  {
    var d := FirstFree(s.owner, 0);
    d.Some? &&
    var t := FirstFree(s.owner[d.value := p], 0);
    t.Some? &&
    var rest := FreePages(s) - {d.value, t.value};
    Loadable(rest, segments) && Remaining(rest, segments) != {}
  }

  lemma {:induction false} LoadableIsFree(free: set<nat>, segments: seq<Segment>, i: nat, w: nat)
    requires Loadable(free, segments) && i < |segments| && w in PagesOf(segments[i])
    ensures w in free
    decreases segments
  {
    if i > 0 {
      LoadableIsFree(free - PagesOf(segments[0]), segments[1..], i - 1, w);
    }
  }

  // What loading needs, whether or not the invariant holds

  predicate Counted(s: State)
    requires WellFormed(s)
  {
    forall g :: 0 <= g < L.npages ==> (s.owner[g] == PO_FREE <==> s.refcount[g] == 0)
  }

  /** Process p has a directory and a page table of its own. */
  predicate Based(s: State, p: nat) {
    WellFormed(s) && 1 <= p < L.nproc && DirectoryOk(s, p) && Counted(s)
  }

  /** From s to s' process p has been given its pages from v up to v + n, each at its own address. */
  predicate Entered(s: State, s': State, p: nat, v: nat, n: nat, perm: Word)
    requires Based(s, p) && WellFormed(s') && perm.frame == 0
  {
    && s'.procs == s.procs && s'.current == s.current && Table(s', p) == Table(s, p)
    && (forall w :: 0 <= w < ENTRIES ==> Pte(s', p, w) == if v <= w < v + n then MakePte(w, perm) else Pte(s, p, w))
  }

  lemma EntryWritten(s: State, p: nat, v: nat, e: Word, s': State)
    requires Based(s, p) && v < ENTRIES && e.present && WellFormed(s') && s'.procs == s.procs
    requires s'.mem == Write(s.mem, Table(s, p), v, e)
    requires Private(s', p, s.procs[p].pagedir) && Private(s', p, Table(s, p))
    ensures SetEntry(s.mem, s.procs[p].pagedir, 0, v, e) == Some(s'.mem)
    ensures DirectoryOk(s', p) && Table(s', p) == Table(s, p)
    ensures forall w :: 0 <= w < ENTRIES ==> Pte(s', p, w) == if w == v then e else Pte(s, p, w)
  {
    var d := s.procs[p].pagedir;
    SetEntryWrites(s, s.mem, p, v, e);
    assert s'.mem[d] == s.mem[d];
    assert forall k :: 0 <= k < ENTRIES ==> Read(s'.mem, d, k) == Read(s.mem, d, k);
    forall w | 0 <= w < ENTRIES
      ensures Pte(s', p, w) == if w == v then e else Pte(s, p, w)
    {
      PteIsTableEntry(s, p, w);
      PteIsTableEntry(s', p, w);
    }
  }

  lemma AllocOne(s: State, p: nat, v: nat, r: Option<State>)
    requires Based(s, p) && r == PageAllocAt(s, p, v)
    ensures r.Some? <==> v in FreePages(s)
    ensures r.Some? ==> Based(r.value, p) && FreePages(r.value) == FreePages(s) - {v}
                        && Entered(s, r.value, p, v, 1, PERM_USER_WRITE)
  {
    if v in FreePages(s) {
      var e := MakePte(v, PERM_USER_WRITE);
      EntryWritten(s, p, v, e, Take(s, v, p).(mem := Write(s.mem, Table(s, p), v, e)));
    }
  }

  lemma EnteredMore(s: State, s1: State, s2: State, p: nat, v: nat, v': nat, n: nat, perm: Word)
    requires Based(s, p) && Based(s1, p) && WellFormed(s2) && perm.frame == 0 && v' == v + 1
    requires Entered(s, s1, p, v, 1, perm) && Entered(s1, s2, p, v', n, perm)
    ensures Entered(s, s2, p, v, n + 1, perm)
  {
  }

  lemma RangeStep(v: nat, v': nat, n: nat)
    requires v' == v + 1
    ensures Range(v, n + 1) == {v} + Range(v', n) && v !in Range(v', n)
  {
    forall w
      ensures InRange(w, v, n + 1) <==> w == v || InRange(w, v', n)
    {
    }
  }

  /** The n pages from v on have been taken for p. */
  ghost predicate Allocated(s: State, s': State, p: nat, v: nat, n: nat)
    requires Based(s, p)
  {
    Based(s', p) && FreePages(s') == FreePages(s) - Range(v, n) && Entered(s, s', p, v, n, PERM_USER_WRITE)
  }

  lemma AllocatedMore(s: State, s1: State, s2: State, p: nat, v: nat, v': nat, n: nat)
    requires Based(s, p) && Based(s1, p) && v' == v + 1 && Allocated(s1, s2, p, v', n)
    requires FreePages(s1) == FreePages(s) - {v} && Entered(s, s1, p, v, 1, PERM_USER_WRITE)
    ensures Allocated(s, s2, p, v, n + 1)
  {
    RangeStep(v, v', n);
    EnteredMore(s, s1, s2, p, v, v', n, PERM_USER_WRITE);
  }

  lemma {:induction false} AllocAll(s: State, p: nat, v: nat, n: nat, r: Option<State>)
    requires Based(s, p) && r == AllocSegment(s, p, v, n)
    ensures r.Some? <==> Range(v, n) <= FreePages(s)
    ensures r.Some? ==> Allocated(s, r.value, p, v, n)
    decreases n
  {
    if n == 0 {
      assert Range(v, n) == {};
    } else {
      var v', n', one := v + 1, n - 1, PageAllocAt(s, p, v);
      RangeStep(v, v', n');
      AllocOne(s, p, v, one);
      if one.Some? {
        AllocAll(one.value, p, v', n', r);
        if r.Some? {
          AllocatedMore(s, one.value, r.value, p, v, v', n');
        }
      }
    }
  }

  /** None of the pages from v up to v + n is the directory or the page table of p. */
  predicate Apart(s: State, p: nat, v: nat, n: nat)
    requires WellFormed(s) && p < L.nproc
  {
    !InRange(s.procs[p].pagedir, v, n) && !InRange(Table(s, p), v, n)
  }

  lemma FreeIsApart(s: State, p: nat, v: nat, n: nat)
    requires Based(s, p) && Range(v, n) <= FreePages(s)
    ensures Apart(s, p, v, n)
  {
    assert forall w :: InRange(w, v, n) ==> w in Range(v, n);
  }

  lemma FillOne(s: State, p: nat, v: nat, content: Page, s': State)
    requires Based(s, p) && v < L.npages && v != s.procs[p].pagedir && v != Table(s, p)
    requires s' == s.(mem := s.mem[v := content])
    ensures Based(s', p) && Entered(s, s', p, 0, 0, PERM_USER)
  {
    TranslationKept(s, s', p);
    assert forall k :: 0 <= k < ENTRIES ==> Read(s'.mem, s.procs[p].pagedir, k) == Read(s.mem, s.procs[p].pagedir, k);
  }

  lemma {:induction false} FillAll(s: State, p: nat, v: nat, contents: seq<Page>, s': State)
    requires Based(s, p) && (contents == [] || v + |contents| <= L.npages) && Apart(s, p, v, |contents|)
    requires s' == FillSegment(s, v, contents)
    ensures Based(s', p) && Entered(s, s', p, 0, 0, PERM_USER) && FreePages(s') == FreePages(s)
    decreases contents
  {
    if contents != [] {
      var s1 := s.(mem := s.mem[v := contents[0]]);
      FillOne(s, p, v, contents[0], s1);
      FillAll(s1, p, v + 1, contents[1..], s');
    }
  }

  lemma {:induction false} ProtectAll(s: State, p: nat, v: nat, n: nat, r: Option<State>)
    requires Based(s, p) && (n == 0 || v + n <= L.npages) && r == ProtectSegment(s, p, v, n)
    ensures r.Some? && Based(r.value, p) && Entered(s, r.value, p, v, n, PERM_USER)
    ensures FreePages(r.value) == FreePages(s)
    decreases n
  {
    if n != 0 {
      var e := MakePte(v, PERM_USER);
      var s1 := s.(mem := Write(s.mem, Table(s, p), v, e));
      EntryWritten(s, p, v, e, s1);
      ProtectAll(s1, p, v + 1, n - 1, r);
    }
  }

  /** Process p has user access to its page w, which lies at its own address. */
  predicate Opened(s: State, p: nat, w: nat)
    requires WellFormed(s) && p < L.nproc
  {
    w < ENTRIES && (Pte(s, p, w) == MakePte(w, PERM_USER) || Pte(s, p, w) == MakePte(w, PERM_USER_WRITE))
  }

  /** The pages from v up to v + n are open in s', and those that were open in s still are. */
  predicate OpenedAlso(s: State, s': State, p: nat, v: nat, n: nat)
    requires WellFormed(s) && WellFormed(s') && p < L.nproc
  {
    forall w :: 0 <= w < ENTRIES && (v <= w < v + n || Opened(s, p, w)) ==> Opened(s', p, w)
  }

  lemma CopyOne(s: State, p: nat, segment: Segment, r: Option<State>)
    requires Based(s, p) && r == CopySegment(s, p, segment)
    ensures r.Some? <==> PagesOf(segment) <= FreePages(s)
    ensures r.Some? ==> Based(r.value, p) && FreePages(r.value) == FreePages(s) - PagesOf(segment)
                        && r.value.procs == s.procs && OpenedAlso(s, r.value, p, segment.first, |segment.contents|)
  {
    var v, n := segment.first, |segment.contents|;
    var reserved := AllocSegment(s, p, v, n);
    AllocAll(s, p, v, n, reserved);
    if reserved.Some? {
      FreeIsApart(s, p, v, n);
      var filled := FillSegment(reserved.value, v, segment.contents);
      FillAll(reserved.value, p, v, segment.contents, filled);
      if !segment.writable {
        ProtectAll(filled, p, v, n, r);
      }
    }
  }

  lemma {:induction false} LoadAll(s: State, p: nat, segments: seq<Segment>, r: Option<State>)
    requires Based(s, p) && r == LoadSegments(s, p, segments)
    ensures r.Some? <==> Loadable(FreePages(s), segments)
    ensures r.Some? ==> Based(r.value, p) && FreePages(r.value) == Remaining(FreePages(s), segments)
                        && r.value.procs == s.procs && OpenedAlso(s, r.value, p, 0, 0)
    ensures r.Some? ==> forall i :: 0 <= i < |segments| ==>
              OpenedAlso(s, r.value, p, segments[i].first, |segments[i].contents|)
    decreases segments
  {
    if segments != [] {
      var one := CopySegment(s, p, segments[0]);
      CopyOne(s, p, segments[0], one);
      if one.Some? {
        LoadAll(one.value, p, segments[1..], r);
        if r.Some? {
          forall i | 0 <= i < |segments|
            ensures OpenedAlso(s, r.value, p, segments[i].first, |segments[i].contents|)
          {
            assert i > 0 ==> segments[i] == segments[1..][i - 1];
          }
        }
      }
    }
  }

  lemma StackGiven(s: State, p: nat, r: Option<State>)
    requires Based(s, p) && r == GiveStack(s, p)
    ensures r.Some? <==> FreePages(s) != {}
    ensures r.Some? ==> r.value.procs == s.procs
                        && forall w :: 0 <= w < ENTRIES && w != L.top - 1 && Opened(s, p, w) ==> Opened(r.value, p, w)
  {
    AllocFindsFree(s);
    if FreePages(s) != {} {
      var g := Alloc(s).value;
      var e := MakePte(g, PERM_USER_WRITE);
      EntryWritten(s, p, L.top - 1, e, Take(s, g, p).(mem := Write(s.mem, Table(s, p), L.top - 1, e)));
    }
  }

  // Process setup

  /** The new process's tables: copy_pagedir takes the two lowest free pages. */
  lemma TablesTaken(s: State, p: nat, registers: Registers, n: State) returns (d: Option<nat>, t: Option<nat>)
    requires Inv(s) && 1 <= p < L.nproc && s.procs[p].state == P_FREE
    requires n == SetProc(s, p, Proc(p, registers, P_RUNNABLE, s.procs[p].pagedir))
    ensures d == FirstFree(s.owner, 0) && t == if d.Some? then FirstFree(s.owner[d.value := p], 0) else None
    ensures t.None? ==> CopyPagedir(n, L.kernelDir, p).1.None?
    ensures t.Some? ==>
              var (s1, dir) := CopyPagedir(n, L.kernelDir, p);
              && dir == d && d.value in FreePages(s) && t.value in FreePages(s) && d.value != t.value
              && SetProc(s1, p, s1.procs[p].(pagedir := d.value))
                 == Created(s, p, d.value, t.value, registers, L.kernelDir)
  {
    d := FirstFree(s.owner, 0);
    t := if d.Some? then FirstFree(s.owner[d.value := p], 0) else None;
    InvFreeUncounted(s);
  }

  lemma SetupStarts(s: State, p: nat, registers: Registers, d: nat, t: nat, s0: State)
    requires Inv(s) && KernelMapped(s) && 1 <= p < L.nproc && s.procs[p].state == P_FREE
    requires d in FreePages(s) && t in FreePages(s) && d != t
    requires s0 == Created(s, p, d, t, registers, L.kernelDir)
    ensures Based(s0, p) && FreePages(s0) == FreePages(s) - {d, t}
  {
    CreateFromKernel(s, p, d, t, registers, s0);
    assert ProcessOk(s0, p);
    forall g | 0 <= g < L.npages
      ensures s0.owner[g] == PO_FREE <==> s0.refcount[g] == 0
    {
      assert PageOk(s0, g);
    }
  }

  /** Setting up a process, from its new tables in s0 on. */
  function SetupFrom(s0: State, p: nat, segments: seq<Segment>): (r: Option<State>)
    requires WellFormed(s0) && p < L.nproc
    ensures r.Some? ==> WellFormed(r.value)
  {
    var loaded := LoadSegments(s0, p, segments);
    if loaded.None? then None else GiveStack(loaded.value, p)
  }

  lemma SetupFromExactly(s0: State, p: nat, segments: seq<Segment>, r: Option<State>)
    requires Based(s0, p) && r == SetupFrom(s0, p, segments)
    ensures r.Some? <==> Loadable(FreePages(s0), segments) && Remaining(FreePages(s0), segments) != {}
  {
    var loaded := LoadSegments(s0, p, segments);
    LoadAll(s0, p, segments, loaded);
    if loaded.Some? {
      StackGiven(loaded.value, p, r);
    }
  }

  /** A page of the program was free, and is open to the process in the end. */
  lemma SetupOpens(s0: State, p: nat, segments: seq<Segment>, s': State, i: nat, w: nat)
    requires Based(s0, p) && SetupFrom(s0, p, segments) == Some(s')
    requires i < |segments| && w in PagesOf(segments[i]) && w != L.top - 1
    ensures w in FreePages(s0) && s'.procs == s0.procs && Opened(s', p, w)
  {
    var loaded := LoadSegments(s0, p, segments);
    LoadAll(s0, p, segments, loaded);
    LoadableIsFree(FreePages(s0), segments, i, w);
    assert OpenedAlso(s0, loaded.value, p, segments[i].first, |segments[i].contents|);
    StackGiven(loaded.value, p, Some(s'));
  }

  /** A page below or above the user area that is open to a process breaks the invariant. */
  lemma OpenedOutside(s: State, p: nat, w: nat)
    requires WellFormed(s) && Live(s, p) && Opened(s, p, w) && !UserPage(w) && w != L.console
    ensures !Inv(s)
  {
    assert !EntryOk(s, p, w, Pte(s, p, w));
  }

  /** Every page of the program lies in the user area. */
  predicate AllInUserArea(segments: seq<Segment>) {
    forall i :: 0 <= i < |segments| ==> segments[i].InUserArea()
  }

  lemma OutsideBreaks(s: State, p: nat, s0: State, segments: seq<Segment>, s': State)
    requires Inv(s) && Based(s0, p) && Live(s0, p) && FreePages(s0) <= FreePages(s)
    requires SetupFrom(s0, p, segments) == Some(s') && !AllInUserArea(segments)
    ensures !Inv(s'.(current := p))
  {
    var i :| 0 <= i < |segments| && !segments[i].InUserArea();
    var w :| segments[i].first <= w < segments[i].first + |segments[i].contents| && !UserPage(w);
    assert InRange(w, segments[i].first, |segments[i].contents|);
    SetupOpens(s0, p, segments, s', i, w);
    OpenedOutside(s'.(current := p), p, w);
  }

  /**
   * Setting up a process gets through exactly when the program fits into memory. It leaves a good state, in which the
   * process can be run, if and only if all of the program is linked to the user area.
   */
  lemma ProcessSetupExactly(s: State, p: nat, registers: Registers, segments: seq<Segment>)
    requires Inv(s) && KernelMapped(s) && 1 <= p < L.nproc && s.procs[p].state == P_FREE
    ensures ProcessSetup(s, p, registers, segments).Some? <==> FitsMemory(s, p, segments)
    ensures ProcessSetup(s, p, registers, segments).Some? ==>
              (Good(ProcessSetup(s, p, registers, segments).value.(current := p)) <==> AllInUserArea(segments))
  {
    var n := SetProc(s, p, Proc(p, registers, P_RUNNABLE, s.procs[p].pagedir));
    var d, t := TablesTaken(s, p, registers, n);
    if t.Some? {
      var s0 := Created(s, p, d.value, t.value, registers, L.kernelDir);
      SetupStarts(s, p, registers, d.value, t.value, s0);
      var r := SetupFrom(s0, p, segments);
      SetupFromExactly(s0, p, segments, r);
      if r.Some? {
        if AllInUserArea(segments) {
          ProcessSetupIsGood(s, p, registers, segments);
        } else {
          OutsideBreaks(s, p, s0, segments, r.value);
        }
      }
    }
  }
}
