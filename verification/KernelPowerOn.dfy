/**
 * A first program after power-on: a page of read-only code and a stack are enough to reach both ends that
 * KernelScenarios describes.
 */
module KernelPowerOn {
  import opened Wrappers
  import opened Collections
  import opened Machine
  import opened KernelState
  import opened KernelInvariant
  import opened KernelSteps
  import opened KernelFork
  import opened KernelForkTheorem
  import opened KernelTheorems
  import opened KernelRuns
  import opened KernelBoot
  import opened KernelLoading
  import opened KernelScenarios

  /** The program of one read-only page v. */
  function OnePage(v: nat, content: Page): seq<Segment> {
    [Segment(v, [content], false)]
  }

  lemma OnePageLoaded(s0: State, p: nat, v: nat, content: Page, r: Option<State>)
    requires Based(s0, p) && v in FreePages(s0) && r == LoadSegments(s0, p, OnePage(v, content))
    ensures r.Some? && Based(r.value, p) && Entered(s0, r.value, p, v, 1, PERM_USER)
    ensures r.value.owner == s0.owner[v := p] && r.value.refcount == s0.refcount[v := 1]
    ensures FreePages(r.value) == FreePages(s0) - {v}
  {
    var segment := Segment(v, [content], false);
    var reserved := PageAllocAt(s0, p, v);
    AllocOne(s0, p, v, reserved);
    assert AllocSegment(s0, p, v, 1) == reserved;
    var filled := reserved.value.(mem := reserved.value.mem[v := content]);
    assert FillSegment(reserved.value, v, [content]) == filled;
    FillOne(reserved.value, p, v, content, filled);
    ProtectAll(filled, p, v, 1, ProtectSegment(filled, p, v, 1));
    assert CopySegment(s0, p, segment) == ProtectSegment(filled, p, v, 1);
    assert OnePage(v, content)[1..] == [];
  }

  lemma StackLoaded(s: State, p: nat, g: nat, r: Option<State>)
    requires Based(s, p) && Alloc(s) == Some(g) && r == GiveStack(s, p)
    ensures r.Some? && r.value.owner == s.owner[g := p] && r.value.refcount == s.refcount[g := 1]
    ensures r.value.procs == s.procs && FreePages(r.value) == FreePages(s) - {g}
    ensures forall w :: 0 <= w < ENTRIES ==>
              Pte(r.value, p, w) == if w == L.top - 1 then MakePte(g, PERM_USER_WRITE) else Pte(s, p, w)
  {
    var e := MakePte(g, PERM_USER_WRITE);
    EntryWritten(s, p, L.top - 1, e, Take(s, g, p).(mem := Write(s.mem, Table(s, p), L.top - 1, e)));
  }

  /** There are enough process slots and pages for a first process and a child. */
  predicate Roomy() {
    3 <= L.nproc && L.start + 7 <= L.npages && L.start + 4 <= L.top
  }

  /** Process 1, alone after booting, has tables d and t, the code page v and the stack page g. */
  predicate FirstProcess(b: State, s: State, d: nat, t: nat, v: nat, g: nat)
    requires WellFormed(b) && WellFormed(s) && d < L.npages && t < L.npages && v < L.npages && g < L.npages
  {
    && s.current == 1 && s.procs[1].state == P_RUNNABLE
    && (forall q :: 2 <= q < L.nproc ==> s.procs[q].state == P_FREE)
    && s.owner == b.owner[d := 1][t := 1][v := 1][g := 1]
    && s.refcount == b.refcount[d := 1][t := 1][v := 1][g := 1]
    && (forall w :: L.start <= w < L.top ==>
         Pte(s, 1, w) == if w == L.top - 1 then MakePte(g, PERM_USER_WRITE)
                         else if w == v then MakePte(v, PERM_USER) else ZERO)
  }

  lemma TwoFewer(a: set<nat>, x: nat, y: nat)
    ensures |a - {x, y}| >= |a| - 2
  {
    assert a - {x, y} == a - {x} - {y};
  }

  lemma {:induction false} RangeSize(v: nat, n: nat)
    ensures |Range(v, n)| == n
    decreases n
  {
    if n == 0 {
      assert Range(v, n) == {};
    } else {
      RangeSize(v + 1, n - 1);
      RangeStep(v, v + 1, n - 1);
    }
  }

  /** Of the seven free pages at least three are left when four have been taken. */
  lemma ThreeLeft(b: State, d: nat, t: nat, v: nat, g: nat)
    requires Booted(b) && L.start + 7 <= L.npages
    ensures |FreePages(b) - {d, t} - {v} - {g}| >= 3
  {
    RangeSize(L.start, 7);
    assert Range(L.start, 7) <= FreePages(b);
    SubsetSize(Range(L.start, 7), FreePages(b));
    TwoFewer(FreePages(b), d, t);
  }

  /** The kernel has booted, and no process has been set up yet. */
  ghost predicate Booted(b: State) {
    && Inv(b) && KernelMapped(b) && NoProcesses(b) && KernelHasItsPages(b)
    && (forall g :: 0 <= g < L.npages && !IsKernelPage(g) && !IsReserved(g) ==>
         b.owner[g] == PO_FREE && b.refcount[g] == 0)
  }

  predicate NoProcesses(b: State)
    requires WellFormed(b)
  {
    forall q :: 0 <= q < L.nproc ==> b.procs[q].state == P_FREE
  }

  /** The tables take the two lowest free pages, so that the third page of the user area is left for the program. */
  lemma TablesAreBelow(b: State, d: Option<nat>, t: Option<nat>)
    requires Booted(b) && L.start + 7 <= L.npages
    requires d == FirstFree(b.owner, 0) && t == if d.Some? then FirstFree(b.owner[d.value := 1], 0) else None
    ensures t.Some? && d.value <= L.start && t.value <= L.start + 1
  {
    assert b.owner[L.start] == PO_FREE;
    assert b.owner[d.value := 1][if d.value == L.start then L.start + 1 else L.start] == PO_FREE;
  }

  /** State s0 is b with tables d and t for process 1, which is runnable and has nothing mapped in the user area. */
  ghost predicate HasTables(b: State, s0: State, d: nat, t: nat)
    requires WellFormed(b)
  {
    && Based(s0, 1) && d in FreePages(b) && t in FreePages(b)
    && s0.owner == b.owner[d := 1][t := 1] && s0.refcount == b.refcount[d := 1][t := 1]
    && FreePages(s0) == FreePages(b) - {d, t}
    && s0.procs == b.procs[1 := s0.procs[1]] && s0.procs[1].state == P_RUNNABLE
    && (forall w :: L.start <= w < L.top ==> Pte(s0, 1, w) == ZERO)
  }

  lemma CreatedFirst(b: State, d: nat, t: nat, registers: Registers, s0: State)
    requires Inv(b) && KernelMapped(b) && b.procs[1].state == P_FREE
    requires d in FreePages(b) && t in FreePages(b) && d != t && s0 == Created(b, 1, d, t, registers, L.kernelDir)
    ensures HasTables(b, s0, d, t)
  {
    SetupStarts(b, 1, registers, d, t, s0);
    CanCreateFromKernel(b, 1, d, t);
    CreatedEntries(b, 1, d, t, registers, L.kernelDir);
  }

  lemma FirstTables(b: State, registers: Registers, segments: seq<Segment>) returns (d: nat, t: nat, s0: State)
    requires Booted(b) && L.start + 7 <= L.npages
    ensures HasTables(b, s0, d, t) && forall w :: L.start + 2 <= w < L.npages ==> w in FreePages(s0)
    ensures ProcessSetup(b, 1, registers, segments) == SetupFrom(s0, 1, segments)
  {
    var n := SetProc(b, 1, Proc(1, registers, P_RUNNABLE, b.procs[1].pagedir));
    var dir, table := TablesTaken(b, 1, registers, n);
    TablesAreBelow(b, dir, table);
    d, t := dir.value, table.value;
    s0 := Created(b, 1, d, t, registers, L.kernelDir);
    CreatedFirst(b, d, t, registers, s0);
  }

  /** State s is s0 with the code page v and the stack page g of process 1. */
  ghost predicate HasProgram(s0: State, s: State, v: nat, g: nat)
    requires WellFormed(s0) && v < L.npages
  {
    && WellFormed(s) && g < L.npages && s.procs == s0.procs && FreePages(s) == FreePages(s0) - {v} - {g}
    && s.owner == s0.owner[v := 1][g := 1] && s.refcount == s0.refcount[v := 1][g := 1]
    && (forall w :: L.start <= w < L.top ==>
         Pte(s, 1, w) == if w == L.top - 1 then MakePte(g, PERM_USER_WRITE)
                         else if w == v then MakePte(v, PERM_USER) else Pte(s0, 1, w))
  }

  lemma ProgramLoaded(s0: State, v: nat, content: Page, w: nat, r: Option<State>) returns (g: nat)
    requires Based(s0, 1) && v in FreePages(s0) && w in FreePages(s0) && v != w
    requires r == SetupFrom(s0, 1, OnePage(v, content))
    ensures r.Some? && HasProgram(s0, r.value, v, g)
  {
    var loaded := LoadSegments(s0, 1, OnePage(v, content));
    OnePageLoaded(s0, 1, v, content, loaded);
    var s1 := loaded.value;
    assert w in FreePages(s1);
    AllocFindsFree(s1);
    g := Alloc(s1).value;
    StackLoaded(s1, 1, g, r);
  }

  lemma FirstAssembled(b: State, s0: State, s: State, d: nat, t: nat, v: nat, g: nat)
    requires WellFormed(b) && NoProcesses(b) && v < L.npages && HasTables(b, s0, d, t) && HasProgram(s0, s, v, g)
    ensures FirstProcess(b, s.(current := 1), d, t, v, g)
    ensures FreePages(s.(current := 1)) == FreePages(b) - {d, t} - {v} - {g}
  {
    assert forall w :: L.start <= w < L.top ==> Pte(s.(current := 1), 1, w) == Pte(s, 1, w);
    assert FreePages(s.(current := 1)) == FreePages(s);
  }

  /** The state when the first program has been set up and runs. */
  lemma FirstSetup(b: State, registers: Registers, content: Page, v: nat, r: Option<State>)
    returns (s: State, d: nat, t: nat, g: nat)
    requires Booted(b) && Roomy() && v == L.start + 2
    requires r == ProcessSetup(b, 1, registers, OnePage(v, content))
    ensures r.Some? && s == r.value.(current := 1)
    ensures d < L.npages && t < L.npages && g < L.npages && FirstProcess(b, s, d, t, v, g)
    ensures FreePages(s) == FreePages(b) - {d, t} - {v} - {g}
  {
    var s0;
    d, t, s0 := FirstTables(b, registers, OnePage(v, content));
    g := ProgramLoaded(s0, v, content, v + 1, r);
    s := r.value.(current := 1);
    FirstAssembled(b, s0, r.value, d, t, v, g);
  }

  // What the first process can do

  lemma FirstCanFork(b: State, s: State, d: nat, t: nat, v: nat, g: nat)
    requires Booted(b) && Roomy() && WellFormed(s) && d < L.npages && t < L.npages && v == L.start + 2 && g < L.npages
    requires FirstProcess(b, s, d, t, v, g) && |FreePages(s)| >= 3
    ensures CanFork(s) && !ForkOverflows(s)
    ensures FreeSlot(s, 1).Some? && SharesAt(s, 1, v) && s.owner[v] == 1
    ensures Reached(s, v) && Writable(Pte(s, 1, L.top - 1))
  {
    assert s.procs[2].state == P_FREE;
    assert WritableBelow(s, 1, L.top) == {L.top - 1};
    assert WritableBelow(s, 1, v) == {};
    assert forall h :: 0 <= h < L.npages ==> s.refcount[h] <= 1;
  }

  lemma FirstIsGood(b: State, registers: Registers, content: Page, v: nat, s: State)
    requires Booted(b) && UserPage(v) && ProcessSetup(b, 1, registers, OnePage(v, content)).Some?
    requires s == ProcessSetup(b, 1, registers, OnePage(v, content)).value.(current := 1)
    ensures Good(s)
  {
    ProcessSetupExactly(b, 1, registers, OnePage(v, content));
  }

  /** Switching the machine on leads to such a state. */
  lemma PowerOnBoots(mem: Memory, registers: Registers) returns (mem': Memory)
    requires |mem| == L.npages
    ensures KernelMemory(mem) == Some(mem') && Booted(BootState(mem', registers))
  {
    mem' := BootIsGood(mem, registers);
  }

  /** State s is b with the one-page program set up as process 1 and running. */
  predicate RunsFirst(b: State, registers: Registers, content: Page, v: nat, s: State)
    requires WellFormed(b) && 1 < L.nproc
  {
    var r := ProcessSetup(b, 1, registers, OnePage(v, content));
    r.Some? && s == r.value.(current := 1)
  }

  /**
   * After booting, setting up a program of one read-only page leads to a good state, in which process 1 runs alone, has
   * memory to fork, and shares the page when it does.
   */
  lemma FirstProcessIsGood(b: State, registers: Registers, content: Page, v: nat) returns (s: State)
    requires Booted(b) && Roomy() && v == L.start + 2
    ensures RunsFirst(b, registers, content, v, s)
    ensures Alone(s) && s.current == 1 && CanFork(s) && !ForkOverflows(s)
    ensures UserPage(v) && SharesAt(s, 1, v) && v < L.npages && s.owner[v] == 1 && BelowWritable(s, v, L.top - 1)
  {
    var r := ProcessSetup(b, 1, registers, OnePage(v, content));
    var d, t, g;
    s, d, t, g := FirstSetup(b, registers, content, v, r);
    assert Good(s) by { FirstIsGood(b, registers, content, v, s); }
    assert |FreePages(s)| >= 3 by { ThreeLeft(b, d, t, v, g); }
    FirstCanFork(b, s, d, t, v, g);
  }

  lemma FirstIsBelowStack(b: State, registers: Registers, content: Page, v: nat) returns (s: State)
    requires Booted(b) && Roomy() && v == L.start + 2
    ensures RunsFirst(b, registers, content, v, s) && BelowWritable(s, v, L.top - 1)
  {
    s := FirstProcessIsGood(b, registers, content, v);
  }

  /** The first process has a run of allowed events that ends with a reference count about to overflow. */
  lemma FirstProcessToOverflow(b: State, registers: Registers, content: Page, v: nat) returns (s: State)
    requires Booted(b) && Roomy() && v == L.start + 2
    ensures RunsFirst(b, registers, content, v, s) && CanOverflow(s)
  {
    s := FirstIsBelowStack(b, registers, content, v);
    AnyShareOverflows(s, registers, v, L.top - 1);
  }

  /** The first process has a run of four system calls after which the kernel stops, as a page is left without heir. */
  lemma FirstProcessToHalt(b: State, registers: Registers, content: Page, v: nat, es: seq<Event>) returns (s: State)
    requires Booted(b) && Roomy() && v == L.start + 2
    requires es == [Trap(registers, SyscallFork), Trap(registers, SyscallYield), Trap(registers, SyscallExit),
                    Trap(registers, SyscallExit)]
    ensures RunsFirst(b, registers, content, v, s) && Good(s) && Run(s, es) == Halted
  {
    s := FirstProcessIsGood(b, registers, content, v);
    ChildsShareIsNeverGivenBack(s, v, registers, registers, registers, registers, es);
  }
}
