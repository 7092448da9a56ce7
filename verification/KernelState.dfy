/**
 * The state of the kernel and what each of its operations does to that state. The number of processes and pages
 * and the memory layout are symbolic.
 */
module KernelState {
  import opened Wrappers
  import opened Machine

  /**
   * Layout, in pages: user programs may use virtual pages from start up to top. Physical pages from io up to start
   * are reserved, the console among them; the kernel with its page directory and page table lies below.
   */
  datatype LayoutData = LayoutData(nproc: nat, npages: nat, start: nat, top: nat, io: nat, console: nat,
                                   kernelStart: nat, kernelEnd: nat, kernelStack: nat,
                                   kernelDir: nat, kernelTable: nat) {
    predicate Ok() {
      && 2 <= nproc <= 127
      && 0 < kernelStart <= kernelDir < kernelEnd <= io && kernelStart <= kernelTable < kernelEnd
      && kernelDir != kernelTable && 0 < kernelStack < io
      && io <= console < start < top <= 1024
      && start < npages <= 1024
    }
  }
  type Layout = l: LayoutData | l.Ok() witness LayoutData(16, 512, 256, 768, 160, 184, 64, 80, 127, 72, 73)
  const L: Layout

  const PO_FREE: int := 0
  const PO_RESERVED: int := -1
  const PO_KERNEL: int := -2

  type Register = n: nat | n < 0x1_0000_0000
  const MINUS_ONE: Register := 0xFFFF_FFFF

  datatype ProcState = P_FREE | P_RUNNABLE | P_BLOCKED | P_BROKEN
  datatype Registers = Registers(eax: Register, others: seq<Register>)
  datatype Proc = Proc(pid: nat, registers: Registers, state: ProcState, pagedir: nat)

  /** pagedir is the physical page number of the process's page directory. */
  datatype State = State(mem: Memory, owner: seq<int>, refcount: seq<int>, procs: seq<Proc>, current: nat)

  predicate WellFormed(s: State) {
    && |s.mem| == |s.owner| == |s.refcount| == L.npages
    && |s.procs| == L.nproc
    && s.current < L.nproc
    && (forall q :: 0 <= q < L.nproc ==> s.procs[q].pid == q)
  }

  /** What happens after an interrupt: a process resumes, the scheduler spins for ever, or an assertion or panic. */
  datatype Outcome = Running(s: State) | Spinning(s: State) | Halted {
    predicate Ok() {
      !Halted? ==> WellFormed(s)
    }
  }

  /** Storing a counter that has moved by one from an int8_t value back into an int8_t. */
  function Int8(x: int): int {
    if x > 127 then x - 256 else if x < -128 then x + 256 else x
  }

  /** The entry through which process q sees virtual page v of the first four megabytes; see LookupLow. */
  function Pte(s: State, q: nat, v: nat): Word
    requires q < |s.procs| && v < ENTRIES
  {
    Translate(s.mem, s.procs[q].pagedir, 0, v)
  }

  function SetProc(s: State, q: nat, p: Proc): State
    requires q < |s.procs|
  {
    s.(procs := s.procs[q := p])
  }

  function SetEax(s: State, q: nat, eax: Register): (s': State)
    requires WellFormed(s) && q < L.nproc
    ensures WellFormed(s')
  {
    SetProc(s, q, s.procs[q].(registers := s.procs[q].registers.(eax := eax)))
  }

  function SetState(s: State, q: nat, state: ProcState): (s': State)
    requires WellFormed(s) && q < L.nproc
    ensures WellFormed(s')
  {
    SetProc(s, q, s.procs[q].(state := state))
  }

  // Allocation

  /** The lowest-numbered free page from i on. */
  function FirstFree(owner: seq<int>, i: nat): (r: Option<nat>)
    requires i <= |owner|
    ensures r.Some? ==> i <= r.value < |owner| && owner[r.value] == PO_FREE
    ensures forall k :: i <= k < (if r.Some? then r.value else |owner|) ==> owner[k] != PO_FREE
    decreases |owner| - i
  {
    if i == |owner| then None else if owner[i] == PO_FREE then Some(i) else FirstFree(owner, i + 1)
  }

  /** Give page g, which must not be in use, to process o. */
  function Take(s: State, g: nat, o: nat): (s': State)
    requires WellFormed(s) && g < L.npages
    ensures WellFormed(s')
  {
    s.(owner := s.owner[g := o], refcount := s.refcount[g := 1])
  }

  /** m_alloc: the lowest-numbered page without owner, unless its reference count says it is in use. */
  function Alloc(s: State): (g: Option<nat>)
    requires WellFormed(s)
    ensures g.Some? ==> g.value < L.npages && s.owner[g.value] == PO_FREE && s.refcount[g.value] == 0
  {
    var g := FirstFree(s.owner, 0);
    if g.Some? && s.refcount[g.value] == 0 then g else None
  }

  // Page directories

  /** The table page for a new process: the entries below the user area are copied, all others are cleared. */
  function TableFrom(mem: Memory, dir: nat): Page {
    var table := ReadPage(mem, Read(mem, dir, 0).frame);
    seq(1024, i requires 0 <= i < 1024 => if i < L.start then table[i] else ZERO)
  }

  function DirectoryFor(table: nat): Page
    requires table < VPAGES
  {
    seq(1024, i => if i == 0 then MakePte(table, PERM_USER_WRITE) else ZERO)
  }

  /** copy_pagedir: the state after it, and the new directory unless memory ran out. */
  function CopyPagedir(s: State, dir: nat, o: nat): (r: (State, Option<nat>))
    requires WellFormed(s)
    ensures WellFormed(r.0) && r.0.procs == s.procs && r.0.current == s.current
    ensures r.1.Some? ==> r.1.value < L.npages
  {
    var d := Alloc(s);
    if d.None? then (s, None) else
    var s1 := Take(s, d.value, o);
    var t := Alloc(s1);
    if t.None? then (s1, None) else
    var s2 := Take(s1, t.value, o);
    var mem := s2.mem[d.value := DirectoryFor(t.value)];
    (s2.(mem := mem[t.value := TableFrom(mem, dir)]), d)
  }

  // Releasing memory

  /** Process q maps physical page g somewhere among the first npages virtual pages, with any permission. */
  predicate ScanFinds(s: State, q: nat, g: nat)
    requires q < |s.procs|
  {
    exists j :: 0 <= j < L.npages && Pte(s, q, j).frame == g
  }

  predicate CanInherit(s: State, q: nat, g: nat)
    requires q < |s.procs|
  {
    s.procs[q].state == P_RUNNABLE && ScanFinds(s, q, g)
  }

  /** The lowest-numbered runnable process from q on that maps page g. */
  function Heir(s: State, g: nat, q: nat): (r: Option<nat>)
    requires WellFormed(s) && q <= L.nproc
    ensures r.Some? ==> q <= r.value < L.nproc && CanInherit(s, r.value, g)
    ensures forall k :: q <= k < (if r.Some? then r.value else L.nproc) ==> !CanInherit(s, k, g)
    decreases L.nproc - q
  {
    if q == L.nproc then None else if CanInherit(s, q, g) then Some(q) else Heir(s, g, q + 1)
  }

  /** m_free: reference count and owner of page g afterwards; None when its assertion fails. */
  function Freed(s: State, g: nat): (r: Option<(int, int)>)
    requires WellFormed(s) && g < L.npages
  {
    var count := Int8(s.refcount[g] - 1);
    if count < 0 then None
    else if count == 0 then Some((0, PO_FREE))
    else
      var heir := Heir(s, g, 1);
      Some((count, if heir.Some? then heir.value else s.owner[g]))
  }

  /** m_releaseMemoryforProcess goes wrong at page g: it has no references left to give back, or no heir. */
  predicate Stuck(s: State, p: nat, g: nat)
    requires WellFormed(s) && p < L.nproc && g < L.npages
  {
    s.owner[g] == p && (Freed(s, g).None? || Freed(s, g).value.1 == p)
  }

  /** Reference count and owner of page g after everything process p owns has been released. */
  function AfterRelease(s: State, p: nat, g: nat): (int, int)
    requires WellFormed(s) && p < L.nproc && g < L.npages
  {
    if s.owner[g] == p && Freed(s, g).Some? then Freed(s, g).value else (s.refcount[g], s.owner[g])
  }

  /** m_releaseMemoryforProcess; None when one of its assertions fails. */
  function Release(s: State, p: nat): (r: Option<State>)
    requires WellFormed(s) && p < L.nproc
    ensures r.Some? ==> WellFormed(r.value)
  {
    var b := SetState(s, p, P_BLOCKED);
    if exists g :: 0 <= g < L.npages && Stuck(b, p, g) then None else
    Some(SetState(b, p, P_FREE).(
      refcount := seq(L.npages, g requires 0 <= g < L.npages => AfterRelease(b, p, g).0),
      owner := seq(L.npages, g requires 0 <= g < L.npages => AfterRelease(b, p, g).1)))
  }

  // Scheduling

  /** The first runnable process among the next n after pid, in cyclic order. */
  function NextRunnable(s: State, pid: nat, n: nat): (r: Option<nat>)
    requires WellFormed(s) && pid < L.nproc
    ensures r.Some? ==> r.value < L.nproc && s.procs[r.value].state == P_RUNNABLE
    decreases n
  {
    if n == 0 then None else
    var next := (pid + 1) % L.nproc;
    if s.procs[next].state == P_RUNNABLE then Some(next)
    else NextRunnable(s, next, n - 1)
  }

  function Resume(s: State, p: nat): (o: Outcome)
    requires WellFormed(s) && p < L.nproc
    ensures o.Ok()
  {
    if s.procs[p].state == P_RUNNABLE then Running(s.(current := p)) else Halted
  }

  function Schedule(s: State): (o: Outcome)
    requires WellFormed(s)
    ensures o.Ok()
  {
    var next := NextRunnable(s, s.current, L.nproc);
    if next.Some? then Resume(s, next.value) else Spinning(s)
  }

  // System calls

  function SysExit(s: State): (o: Outcome)
    requires WellFormed(s)
    ensures o.Ok()
  {
    var r := Release(s, s.current);
    if r.Some? then Schedule(r.value) else Halted
  }

  /** The requested address is in eax. */
  function SysPageAlloc(s: State): (o: Outcome)
    requires WellFormed(s)
    ensures o.Ok()
  {
    var g := Alloc(s);
    if g.None? then Resume(SetEax(s, s.current, MINUS_ONE), s.current) else
    var s1 := Take(s, g.value, s.current);
    var p := s.procs[s.current];
    var mem := VirtualMemoryMap(s1.mem, p.pagedir, p.registers.eax, g.value * 4096, PAGESIZE, PERM_USER_WRITE);
    if mem.None? then Halted else
    Resume(SetEax(s1.(mem := mem.value), s.current, g.value * 4096), s.current)
  }

  datatype CopyResult = Copied(s: State) | OutOfMemory(s: State) | CopyPanic

  /** Give child c its own copy of the father's writable page v. */
  function CopyWritable(s: State, c: nat, v: nat, e: Word): (r: CopyResult)
    requires WellFormed(s) && c < L.nproc && v < L.top
    ensures !r.CopyPanic? ==> WellFormed(r.s) && r.s.current == s.current
  {
    var g := Alloc(s);
    if g.None? then OutOfMemory(s) else
    var s1 := Take(s, g.value, c);
    var copied := s1.mem[g.value := ReadPage(s1.mem, e.frame)];
    var mem := SetEntry(copied, s1.procs[c].pagedir, 0, v, MakePte(g.value, PERM_USER_WRITE));
    if mem.None? then CopyPanic else Copied(s1.(mem := mem.value))
  }

  /** Let child c share the father's read-only page v. */
  function ShareReadOnly(s: State, c: nat, v: nat, e: Word): (r: CopyResult)
    requires WellFormed(s) && c < L.nproc && v < L.top
    ensures !r.CopyPanic? ==> WellFormed(r.s) && r.s.current == s.current
  {
    var g := e.frame;
    if g >= L.npages then CopyPanic else
    var mem := SetEntry(s.mem, s.procs[c].pagedir, 0, v, MakePte(g, PERM_USER));
    if mem.None? then CopyPanic else
    Copied(s.(mem := mem.value, refcount := s.refcount[g := Int8(s.refcount[g] + 1)]))
  }

  /** One turn of fork's loop: process c gets virtual page v of process f. */
  function ForkPage(s: State, f: nat, c: nat, v: nat): (r: CopyResult)
    requires WellFormed(s) && f < L.nproc && c < L.nproc && v < L.top
    ensures !r.CopyPanic? ==> WellFormed(r.s) && r.s.current == s.current
  {
    var e := Pte(s, f, v);
    if Writable(e) then CopyWritable(s, c, v, e)
    else if Readable(e) then ShareReadOnly(s, c, v, e)
    else Copied(s)
  }

  /** fork's loop from virtual page v on. */
  function ForkPages(s: State, f: nat, c: nat, v: nat): (r: CopyResult)
    requires WellFormed(s) && f < L.nproc && c < L.nproc && v <= L.top
    ensures !r.CopyPanic? ==> WellFormed(r.s) && r.s.current == s.current
    decreases L.top - v
  {
    if v == L.top then Copied(s) else
    var r := ForkPage(s, f, c, v);
    if r.Copied? then ForkPages(r.s, f, c, v + 1) else r
  }

  /** The first turn of the loop, and the rest. */
  lemma ForkPagesUnfold(s: State, f: nat, c: nat, v: nat, v': nat, r: CopyResult) returns (first: CopyResult)
    requires WellFormed(s) && f < L.nproc && c < L.nproc && v < L.top && v' == v + 1
    requires r == ForkPages(s, f, c, v)
    ensures first == ForkPage(s, f, c, v)
    ensures r == if first.Copied? then ForkPages(first.s, f, c, v') else first
  {
    first := ForkPage(s, f, c, v);
  }

  /** The lowest-numbered free process slot from i on. */
  function FreeSlot(s: State, i: nat): (r: Option<nat>)
    requires WellFormed(s) && i <= L.nproc
    ensures r.Some? ==> i <= r.value < L.nproc && s.procs[r.value].state == P_FREE
    ensures forall k :: i <= k < (if r.Some? then r.value else L.nproc) ==> s.procs[k].state != P_FREE
    decreases L.nproc - i
  {
    if i == L.nproc then None else if s.procs[i].state == P_FREE then Some(i) else FreeSlot(s, i + 1)
  }

  /** The child as fork first sets it up; its page directory is still whatever the slot held before. */
  function NewChild(s: State, c: nat): (s': State)
    requires WellFormed(s) && c < L.nproc
    ensures WellFormed(s')
  {
    var father := s.procs[s.current];
    SetProc(s, c, Proc(c, father.registers.(eax := 0), P_RUNNABLE, s.procs[c].pagedir))
  }

  /** Fork fails for lack of memory: everything the child holds is released. */
  function AbortFork(s: State, c: nat): (o: Outcome)
    requires WellFormed(s) && c < L.nproc
    ensures o.Ok()
  {
    var r := Release(s, c);
    if r.None? then Halted else Resume(SetEax(r.value, s.current, MINUS_ONE), s.current)
  }

  /** What fork does once its loop has ended. */
  function FinishFork(f: nat, c: nat, r: CopyResult): (o: Outcome)
    requires f < L.nproc && c < L.nproc
    requires !r.CopyPanic? ==> WellFormed(r.s) && r.s.current == f
    ensures o.Ok()
  {
    match r
    case Copied(s) => Resume(SetEax(s, f, c), f)
    case OutOfMemory(s) => AbortFork(s, c)
    case CopyPanic => Halted
  }

  function SysFork(s: State): (o: Outcome)
    requires WellFormed(s)
    ensures o.Ok()
  {
    var slot := FreeSlot(s, 1);
    if slot.None? then Resume(SetEax(s, s.current, MINUS_ONE), s.current) else
    var c := slot.value;
    var (s1, dir) := CopyPagedir(NewChild(s, c), s.procs[s.current].pagedir, c);
    if dir.None? then AbortFork(s1, c) else
    var s2 := SetProc(s1, c, s1.procs[c].(pagedir := dir.value));
    FinishFork(s.current, c, ForkPages(s2, s.current, c, L.start))
  }

  // Interrupts

  datatype Cause =
    | SyscallPanic
    | SyscallExit
    | SyscallGetpid
    | SyscallYield
    | SyscallPageAlloc
    | SyscallFork
    | Timer
    | PageFault(user: bool)
    | Unexpected

  /** Table page t and directory d are owned by o; the directory has refcount n and each table refcount 1. */
  predicate DirectoryChecked(s: State, d: nat, o: int, n: int)
    requires WellFormed(s)
  {
    && d < L.npages && s.owner[d] == o && s.refcount[d] == n
    && forall k :: 0 <= k < ENTRIES && Read(s.mem, d, k).present ==>
         var t := Read(s.mem, d, k).frame;
         t < L.npages && s.owner[t] == o && s.refcount[t] == 1
  }

  ghost function UsersOfKernelDir(s: State): set<nat>
    requires WellFormed(s)
  {
    set q: nat | q < L.nproc && s.procs[q].state != P_FREE && s.procs[q].pagedir == L.kernelDir
  }

  /** The assertions of virtual_memory_check. */
  ghost predicate Checked(s: State)
    requires WellFormed(s)
  {
    && s.procs[0].state == P_FREE
    && DirectoryChecked(s, L.kernelDir, PO_KERNEL, 1 + |UsersOfKernelDir(s)|)
    && (forall q :: 0 <= q < L.nproc && s.procs[q].state != P_FREE ==>
         if s.procs[q].pagedir == L.kernelDir then
           DirectoryChecked(s, L.kernelDir, PO_KERNEL, 1 + |UsersOfKernelDir(s)|)
         else
           DirectoryChecked(s, s.procs[q].pagedir, q, 1))
    && (forall g :: 0 <= g < L.npages && s.refcount[g] > 0 && s.owner[g] >= 0 ==>
         s.owner[g] < L.nproc && s.procs[s.owner[g]].state != P_FREE)
  }

  function SaveRegisters(s: State, registers: Registers): (s': State)
    requires WellFormed(s)
    ensures WellFormed(s')
  {
    SetProc(s, s.current, s.procs[s.current].(registers := registers))
  }

  function Dispatch(s: State, cause: Cause): (o: Outcome)
    requires WellFormed(s)
    ensures o.Ok()
  {
    match cause
    case SyscallPanic => Halted
    case SyscallExit => SysExit(s)
    case SyscallGetpid => Resume(SetEax(s, s.current, s.current), s.current)
    case SyscallYield => Schedule(s)
    case SyscallPageAlloc => SysPageAlloc(s)
    case SyscallFork => SysFork(s)
    case Timer => Schedule(s)
    case PageFault(user) => if user then Schedule(SetState(s, s.current, P_BROKEN)) else Halted
    case Unexpected => Halted
  }

  /** The interrupt handler. */
  ghost function Interrupt(s: State, registers: Registers, cause: Cause): (o: Outcome)
    requires WellFormed(s)
    ensures o.Ok()
  {
    var s1 := SaveRegisters(s, registers);
    if Checked(s1) then Dispatch(s1, cause) else Halted
  }

  /** The running program stores w through virtual page v; without write permission the store has no effect. */
  function UserStore(s: State, v: nat, i: nat, w: Word): (s': State)
    requires WellFormed(s) && v < VPAGES && i < ENTRIES
    ensures WellFormed(s')
  {
    var e := Lookup(s.mem, s.procs[s.current].pagedir, v);
    if Writable(e) then s.(mem := Write(s.mem, e.frame, i, w)) else s
  }
}
