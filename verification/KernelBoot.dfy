/**
 * From power-on to the first process: the kernel's own page table, pageinfo_init, and the program loader. Booting
 * leads to a state in which the invariant holds.
 */
module KernelBoot {
  import opened Wrappers
  import opened Collections
  import opened Machine
  import opened KernelState
  import opened KernelInvariant
  import opened KernelFrames
  import opened KernelSteps
  import opened KernelFork
  import opened KernelSyscalls
  import opened KernelTheorems

  // The kernel's page table

  /** virtual_memory_init and start: identity-map memory, then close everything below the user area but the console. */
  function KernelMemory(mem: Memory): (r: Option<Memory>)
    requires |mem| == L.npages
    ensures r.Some? ==> |r.value| == L.npages
  {
    var d := L.kernelDir;
    var mem0 := mem[L.kernelTable := ZeroPage()][d := DirectoryFor(L.kernelTable)];
    var all := MapSelf(mem0, 0, L.npages, PERM_USER_WRITE);
    if all.None? then None else
    var below := MapSelf(all.value, 0, L.console, PERM_KERNEL);
    if below.None? then None else
    MapSelf(below.value, L.console + 1, L.start - (L.console + 1), PERM_KERNEL)
  }

  /** The kernel maps the n pages from v on to themselves. */
  function MapSelf(mem: Memory, v: nat, n: nat, perm: Word): (r: Option<Memory>)
    requires v + n <= ENTRIES && perm.frame == 0
    ensures r.Some? ==> |r.value| == |mem|
  {
    VirtualMemoryMap(mem, L.kernelDir, v * 4096, v * 4096, n * 4096, perm)
  }

  predicate KernelDirectoryIn(mem: Memory) {
    |mem| == L.npages && mem[L.kernelDir] == DirectoryFor(L.kernelTable)
  }

  /** From mem to mem' the kernel's page table has changed for the n pages from v on, which are mapped to themselves. */
  predicate RangeMapped(mem: Memory, mem': Memory, v: nat, n: nat, perm: Word)
    requires perm.frame == 0
  {
    && KernelDirectoryIn(mem')
    && (forall w :: 0 <= w < ENTRIES ==>
         Translate(mem', L.kernelDir, 0, w) ==
           if v <= w < v + n then MakePte(w, perm) else Translate(mem, L.kernelDir, 0, w))
  }

  lemma KernelRange(mem: Memory, v: nat, n: nat, perm: Word) returns (mem': Memory)
    requires KernelDirectoryIn(mem) && v + n <= L.npages && perm.frame == 0 && perm.present
    ensures MapSelf(mem, v, n, perm) == Some(mem') && RangeMapped(mem, mem', v, n, perm)
  {
    var d := L.kernelDir;
    KernelDirectoryUnaliased(mem);
    forall w | v <= w < v + n
      ensures TableReachable(mem, d, DirSlot(w))
    {
      LookupLow(mem, d, w);
    }
    MapRangeIsUpdate(mem, d, v, v, n, perm);
    MapFromIsMapRange(mem, d, None, v, v, n, perm);
    mem' := MapRange(mem, d, v, v, n, perm).value;
    assert n * 4096 / 4096 == n && v * 4096 / 4096 == v;
    forall w | 0 <= w < ENTRIES
      ensures Translate(mem', d, 0, w) == if v <= w < v + n then MakePte(w, perm) else Translate(mem, d, 0, w)
    {
      assert UpdatedAt(mem, mem', d, v, v, n, perm, w);
      LookupLow(mem, d, w);
      LookupLow(mem', d, w);
    }
  }

  lemma KernelDirectoryUnaliased(mem: Memory)
    requires KernelDirectoryIn(mem)
    ensures Unaliased(mem, L.kernelDir)
  {
    forall k | 0 <= k < ENTRIES
      ensures TableInMemory(mem, L.kernelDir, k)
    {
    }
    forall k, l | 0 <= k < l < ENTRIES
      ensures TablesApart(mem, L.kernelDir, k, l)
    {
    }
  }

  /** What three mappings, one on top of the other, make of an entry. */
  lemma EntryAfterRanges(v: nat, e0: Word, e1: Word, e2: Word, e3: Word)
    requires v < ENTRIES && e0 == ZERO
    requires e1 == if 0 <= v < L.npages then MakePte(v, PERM_USER_WRITE) else e0
    requires e2 == if 0 <= v < L.console then MakePte(v, PERM_KERNEL) else e1
    requires e3 == if L.console + 1 <= v < L.start then MakePte(v, PERM_KERNEL) else e2
    ensures e3 == KernelEntry(v)
  {
  }

  lemma EntriesAfterRanges(mem0: Memory, all: Memory, below: Memory, mem': Memory)
    requires KernelDirectoryIn(mem0) && mem0[L.kernelTable] == ZeroPage()
    requires RangeMapped(mem0, all, 0, L.npages, PERM_USER_WRITE) && RangeMapped(all, below, 0, L.console, PERM_KERNEL)
    requires RangeMapped(below, mem', L.console + 1, L.start - (L.console + 1), PERM_KERNEL)
    ensures forall v :: 0 <= v < ENTRIES ==> Translate(mem', L.kernelDir, 0, v) == KernelEntry(v)
  {
    forall v | 0 <= v < ENTRIES
      ensures Translate(mem', L.kernelDir, 0, v) == KernelEntry(v)
    {
      EntryAfterRanges(v, Translate(mem0, L.kernelDir, 0, v), Translate(all, L.kernelDir, 0, v),
                       Translate(below, L.kernelDir, 0, v), Translate(mem', L.kernelDir, 0, v));
    }
  }

  /** After booting, the kernel's page table is as intended; in particular only the console is open to users. */
  lemma KernelMemoryOk(mem: Memory) returns (mem': Memory)
    requires |mem| == L.npages
    ensures KernelMemory(mem) == Some(mem') && KernelDirectoryIn(mem')
    ensures forall v :: 0 <= v < ENTRIES ==> Translate(mem', L.kernelDir, 0, v) == KernelEntry(v)
  {
    var mem0 := mem[L.kernelTable := ZeroPage()][L.kernelDir := DirectoryFor(L.kernelTable)];
    var all := KernelRange(mem0, 0, L.npages, PERM_USER_WRITE);
    var below := KernelRange(all, 0, L.console, PERM_KERNEL);
    mem' := KernelRange(below, L.console + 1, L.start - (L.console + 1), PERM_KERNEL);
    EntriesAfterRanges(mem0, all, below, mem');
  }

  // pageinfo_init

  function BootOwner(g: nat): int {
    if g == 0 || L.io <= g < L.start then PO_RESERVED
    else if L.kernelStart <= g < L.kernelEnd || g == L.kernelStack then PO_KERNEL
    else PO_FREE
  }

  /** The state after the kernel has initialised itself, with page contents mem. */
  function BootState(mem: Memory, registers: Registers): (s: State)
    requires |mem| == L.npages
    ensures WellFormed(s)
  {
    State(mem,
          seq(L.npages, g requires 0 <= g => BootOwner(g)),
          seq(L.npages, g requires 0 <= g => if BootOwner(g) != PO_FREE then 1 else 0),
          seq(L.nproc, q requires 0 <= q => Proc(q, registers, P_FREE, 0)),
          0)
  }

  /** The kernel's image and its stack. */
  predicate IsKernelPage(g: nat) {
    L.kernelStart <= g < L.kernelEnd || g == L.kernelStack
  }

  /** Page 0, and the range of the devices and the read-only memory. */
  predicate IsReserved(g: nat) {
    g == 0 || L.io <= g < L.start
  }

  /** The kernel and the hardware have their pages, with one reference each. */
  predicate KernelHasItsPages(s: State)
    requires WellFormed(s)
  {
    forall g :: 0 <= g < L.npages && (IsKernelPage(g) || IsReserved(g)) ==>
      s.owner[g] == (if IsReserved(g) then PO_RESERVED else PO_KERNEL) && s.refcount[g] == 1
  }

  /** The kernel's page table still maps the pages below the user area as it did after booting. */
  predicate KernelMapped(s: State)
    requires WellFormed(s)
  {
    && KernelDirectoryIn(s.mem)
    && (forall v :: 0 <= v < L.start ==> Translate(s.mem, L.kernelDir, 0, v) == KernelEntry(v))
    && s.owner[L.kernelTable] == PO_KERNEL
  }

  /**
   * After booting, the kernel's image, its stack and the reserved pages are taken, all other pages are free, there is
   * no process, and the invariant holds.
   */
  lemma BootIsGood(mem: Memory, registers: Registers) returns (mem': Memory)
    requires |mem| == L.npages
    ensures KernelMemory(mem) == Some(mem')
    ensures var s := BootState(mem', registers);
      && Inv(s) && KernelMapped(s) && KernelHasItsPages(s) && (forall q :: !Live(s, q))
      && (forall g :: 0 <= g < L.npages && !IsKernelPage(g) && !IsReserved(g) ==>
           s.owner[g] == PO_FREE && s.refcount[g] == 0)
  {
    mem' := KernelMemoryOk(mem);
    var s := BootState(mem', registers);
    assert forall q :: !Live(s, q);
    forall g | 0 <= g < L.npages
      ensures PageOk(s, g) && CountOk(s, g)
    {
    }
  }

  // Loading a program

  /** Process p loses write access to its page v, which lies at its own address. */
  function Protected(s: State, p: nat, v: nat): (s': State)
    requires WellFormed(s) && p < L.nproc && v < ENTRIES
    ensures WellFormed(s')
  {
    s.(mem := Write(s.mem, Table(s, p), v, MakePte(v, PERM_USER)))
  }

  predicate CanProtect(s: State, p: nat, v: nat)
    requires WellFormed(s)
  {
    Live(s, p) && UserPage(v) && v < L.npages && Pte(s, p, v) == MakePte(v, PERM_USER_WRITE)
  }

  lemma ProtectKeepsOthers(s: State, p: nat, v: nat, r: nat)
    requires Inv(s) && CanProtect(s, p, v) && Live(s, r) && r != p
    ensures SameTranslation(s, Protected(s, p, v), r) && ProcessOk(Protected(s, p, v), r)
  {
    assert ProcessOk(s, p) && ProcessOk(s, r);
    ProcessKept(s, Protected(s, p, v), r);
  }

  lemma ProtectEntries(s: State, p: nat, v: nat)
    requires Inv(s) && CanProtect(s, p, v)
    ensures var s' := Protected(s, p, v);
      && DirectoryOk(s', p) && Table(s', p) == Table(s, p)
      && (forall w :: 0 <= w < ENTRIES ==> Pte(s', p, w) == if w == v then MakePte(v, PERM_USER) else Pte(s, p, w))
  {
    var s' := Protected(s, p, v);
    assert ProcessOk(s, p);
    var d := s.procs[p].pagedir;
    assert s'.mem[d] == s.mem[d];
    assert forall k :: 0 <= k < ENTRIES ==> Read(s'.mem, d, k) == Read(s.mem, d, k);
    forall w | 0 <= w < ENTRIES
      ensures Pte(s', p, w) == if w == v then MakePte(v, PERM_USER) else Pte(s, p, w)
    {
      PteIsTableEntry(s, p, w);
      PteIsTableEntry(s', p, w);
    }
  }

  lemma ProtectKeepsReceiver(s: State, p: nat, v: nat)
    requires Inv(s) && CanProtect(s, p, v)
    ensures ProcessOk(Protected(s, p, v), p)
  {
    var s' := Protected(s, p, v);
    assert ProcessOk(s, p) && EntryOk(s, p, v, Pte(s, p, v));
    ProtectEntries(s, p, v);
    forall w | 0 <= w < ENTRIES
      ensures EntryOk(s', p, w, Pte(s', p, w))
    {
      assert EntryOk(s, p, w, Pte(s, p, w));
    }
    forall w, w' | L.start <= w < w' < L.top
      ensures MappedOnce(s', p, w, w')
    {
      assert MappedOnce(s, p, w, w');
    }
  }

  lemma ProtectKeepsInv(s: State, p: nat, v: nat)
    requires Inv(s) && CanProtect(s, p, v)
    ensures Inv(Protected(s, p, v))
  {
    var s' := Protected(s, p, v);
    assert KernelOk(s') by {
      assert ProcessOk(s, p);
      KernelKept(s, s');
    }
    assert PagesOk(s') by {
      forall h | 0 <= h < L.npages ensures PageOk(s', h) {
        assert PageOk(s, h);
      }
    }
    forall r | 1 <= r < L.nproc && Live(s', r)
      ensures ProcessOk(s', r)
    {
      if r == p {
        ProtectKeepsReceiver(s, p, v);
      } else {
        ProtectKeepsOthers(s, p, v, r);
      }
    }
    forall h | 0 <= h < L.npages
      ensures CountOk(s', h)
    {
      assert CountOk(s, h);
      ProtectUsers(s, p, v, h);
      SubsetSize(Users(s', h), Users(s, h));
    }
  }

  lemma ProtectUsers(s: State, p: nat, v: nat, h: nat)
    requires Inv(s) && CanProtect(s, p, v) && h < L.npages
    ensures Users(Protected(s, p, v), h) <= Users(s, h)
  {
    var s' := Protected(s, p, v);
    forall r | r in Users(s', h)
      ensures r in Users(s, h)
    {
      if r != p {
        ProtectKeepsOthers(s, p, v, r);
        assert ProcessOk(s, r);
        TranslationKept(s, s', r);
      } else if s'.owner[h] != p {
        var w :| L.start <= w < L.top && MapsAt(s', p, w, h);
        ProtectEntries(s, p, v);
        assert MapsAt(s, p, w, h);
      }
    }
  }

  /** page_alloc: process p gets physical page v at its own address; None if that page is not available. */
  function PageAllocAt(s: State, p: nat, v: nat): (r: Option<State>)
    requires WellFormed(s) && p < L.nproc
    ensures r.Some? ==> WellFormed(r.value)
  {
    if v >= L.npages || s.refcount[v] != 0 then None else
    var s1 := Take(s, v, p);
    var mem := SetEntry(s1.mem, s1.procs[p].pagedir, 0, v, MakePte(v, PERM_USER_WRITE));
    if mem.None? then None else Some(s1.(mem := mem.value))
  }

  // The three passes of copyseg over the n pages from v on: allocate, fill, and protect unless writable

  function AllocSegment(s: State, p: nat, v: nat, n: nat): (r: Option<State>)
    requires WellFormed(s) && p < L.nproc
    ensures r.Some? ==> WellFormed(r.value) && (n == 0 || v + n <= L.npages)
    decreases n
  {
    if n == 0 then Some(s) else
    var s1 := PageAllocAt(s, p, v);
    if s1.None? then None else AllocSegment(s1.value, p, v + 1, n - 1)
  }

  function FillSegment(s: State, v: nat, contents: seq<Page>): (s': State)
    requires WellFormed(s) && (contents == [] || v + |contents| <= L.npages)
    ensures WellFormed(s') && s'.(mem := s.mem) == s
    decreases contents
  {
    if contents == [] then s else
    FillSegment(s.(mem := s.mem[v := contents[0]]), v + 1, contents[1..])
  }

  function ProtectSegment(s: State, p: nat, v: nat, n: nat): (r: Option<State>)
    requires WellFormed(s) && p < L.nproc && (n == 0 || v + n <= L.npages)
    ensures r.Some? ==> WellFormed(r.value)
    decreases n
  {
    if n == 0 then Some(s) else
    var mem := SetEntry(s.mem, s.procs[p].pagedir, 0, v, MakePte(v, PERM_USER));
    if mem.None? then None else ProtectSegment(s.(mem := mem.value), p, v + 1, n - 1)
  }

  datatype Segment = Segment(first: nat, contents: seq<Page>, writable: bool) {
    /** The segment is linked to addresses in the user area. */
    predicate InUserArea() { forall v :: first <= v < first + |contents| ==> UserPage(v) }
  }

  function CopySegment(s: State, p: nat, segment: Segment): (r: Option<State>)
    requires WellFormed(s) && p < L.nproc
    ensures r.Some? ==> WellFormed(r.value)
  {
    var n := |segment.contents|;
    var reserved := AllocSegment(s, p, segment.first, n);
    if reserved.None? then None else
    var filled := FillSegment(reserved.value, segment.first, segment.contents);
    if segment.writable then Some(filled) else ProtectSegment(filled, p, segment.first, n)
  }

  function LoadSegments(s: State, p: nat, segments: seq<Segment>): (r: Option<State>)
    requires WellFormed(s) && p < L.nproc
    ensures r.Some? ==> WellFormed(r.value)
    decreases segments
  {
    if segments == [] then Some(s) else
    var s1 := CopySegment(s, p, segments[0]);
    if s1.None? then None else LoadSegments(s1.value, p, segments[1..])
  }

  /** The stack page at the top of the user area. */
  function GiveStack(s: State, p: nat): (r: Option<State>)
    requires WellFormed(s) && p < L.nproc
    ensures r.Some? ==> WellFormed(r.value)
  {
    var g := Alloc(s);
    if g.None? then None else
    var s1 := Take(s, g.value, p);
    var mem := SetEntry(s1.mem, s1.procs[p].pagedir, 0, L.top - 1, MakePte(g.value, PERM_USER_WRITE));
    if mem.None? then None else Some(s1.(mem := mem.value))
  }

  /**
   * process_setup for a free slot p; None if booting does not get through. The process is marked runnable at
   * once instead of at the end, since nothing looks at it in between.
   */
  function ProcessSetup(s: State, p: nat, registers: Registers, segments: seq<Segment>): (r: Option<State>)
    requires WellFormed(s) && p < L.nproc
    ensures r.Some? ==> WellFormed(r.value)
  {
    var n := SetProc(s, p, Proc(p, registers, P_RUNNABLE, s.procs[p].pagedir));
    var (s1, dir) := CopyPagedir(n, L.kernelDir, p);
    if dir.None? then None else
    var s2 := LoadSegments(SetProc(s1, p, s1.procs[p].(pagedir := dir.value)), p, segments);
    if s2.None? then None else
    GiveStack(s2.value, p)
  }

  // Loading keeps the invariant

  /** What every step of booting keeps. */
  ghost predicate Loading(s: State, p: nat) {
    Inv(s) && KernelMapped(s) && Runnable(s, p)
  }

  lemma KernelMappedKept(s: State, s': State)
    requires WellFormed(s) && WellFormed(s') && KernelMapped(s)
    requires s'.mem[L.kernelDir] == s.mem[L.kernelDir] && s'.mem[L.kernelTable] == s.mem[L.kernelTable]
    requires s'.owner[L.kernelTable] == s.owner[L.kernelTable]
    ensures KernelMapped(s')
  {
  }

  lemma GrantStays(s: State, p: nat, v: nat, g: nat, s': State)
    requires Loading(s, p) && UserPage(v) && g < L.npages && s.owner[g] == PO_FREE
    requires s' == Granted(s, p, v, g, s.mem[g])
    ensures Loading(s', p)
    ensures SetEntry(s.mem, s.procs[p].pagedir, 0, v, MakePte(g, PERM_USER_WRITE)) == Some(s'.mem)
    ensures forall w :: 0 <= w < ENTRIES ==>
              Pte(s', p, w) == if w == v then MakePte(g, PERM_USER_WRITE) else Pte(s, p, w)
  {
    assert ProcessOk(s, p);
    assert s.mem[g := s.mem[g]] == s.mem;
    SetEntryWrites(s, s.mem, p, v, MakePte(g, PERM_USER_WRITE));
    GrantKeepsInv(s, p, v, g, s.mem[g]);
    GrantEntries(s, p, v, g, s.mem[g]);
    KernelMappedKept(s, s');
  }

  /** Process p can write its pages from v up to v + n, each at its own address. */
  predicate WritableFrom(s: State, p: nat, v: nat, n: nat)
    requires WellFormed(s) && p < L.nproc && (n == 0 || v + n <= L.npages)
  {
    forall w :: v <= w < v + n ==> Pte(s, p, w) == MakePte(w, PERM_USER_WRITE)
  }

  predicate SameBelow(s: State, s': State, p: nat, v: nat)
    requires WellFormed(s) && WellFormed(s') && p < L.nproc && v <= ENTRIES
  {
    forall w :: 0 <= w < v ==> Pte(s', p, w) == Pte(s, p, w)
  }

  lemma {:induction false} AllocSegmentStays(s: State, p: nat, v: nat, n: nat)
    requires Loading(s, p) && (n == 0 || (L.start <= v && v + n <= L.top))
    requires AllocSegment(s, p, v, n).Some?
    ensures var s' := AllocSegment(s, p, v, n).value;
      Loading(s', p) && WritableFrom(s', p, v, n) && (n > 0 ==> SameBelow(s, s', p, v))
    decreases n
  {
    if n != 0 {
      assert PageOk(s, v);
      var s1 := Granted(s, p, v, v, s.mem[v]);
      GrantStays(s, p, v, v, s1);
      assert PageAllocAt(s, p, v) == Some(s1);
      AllocSegmentStays(s1, p, v + 1, n - 1);
    }
  }

  lemma FillStays(s: State, p: nat, v: nat, content: Page, s': State)
    requires Loading(s, p) && UserPage(v) && v < L.npages && Pte(s, p, v) == MakePte(v, PERM_USER_WRITE)
    requires s' == s.(mem := s.mem[v := content])
    ensures Loading(s', p) && forall w :: 0 <= w < ENTRIES ==> Pte(s', p, w) == Pte(s, p, w)
  {
    EntryKinds(s, p, v);
    forall r | Live(s, r)
      ensures SameTranslation(s, s', r)
    {
      assert ProcessOk(s, r);
    }
    SameTablesKeepInv(s, s');
    KernelMappedKept(s, s');
    assert ProcessOk(s, p);
    TranslationKept(s, s', p);
  }

  lemma {:induction false} FillSegmentStays(s: State, p: nat, v: nat, contents: seq<Page>)
    requires Loading(s, p)
    requires contents == [] || (L.start <= v && v + |contents| <= L.top && v + |contents| <= L.npages)
    requires WritableFrom(s, p, v, |contents|)
    ensures var s' := FillSegment(s, v, contents);
      Loading(s', p) && forall w :: 0 <= w < ENTRIES ==> Pte(s', p, w) == Pte(s, p, w)
    decreases contents
  {
    if contents != [] {
      var s1 := s.(mem := s.mem[v := contents[0]]);
      FillStays(s, p, v, contents[0], s1);
      FillSegmentStays(s1, p, v + 1, contents[1..]);
    }
  }

  lemma {:induction false} ProtectSegmentStays(s: State, p: nat, v: nat, n: nat)
    requires Loading(s, p) && (n == 0 || (L.start <= v && v + n <= L.top && v + n <= L.npages))
    requires WritableFrom(s, p, v, n)
    ensures ProtectSegment(s, p, v, n).Some? && Loading(ProtectSegment(s, p, v, n).value, p)
    decreases n
  {
    if n != 0 {
      var s1 := Protected(s, p, v);
      ProtectKeepsInv(s, p, v);
      ProtectEntries(s, p, v);
      assert ProcessOk(s, p);
      SetEntryWrites(s, s.mem, p, v, MakePte(v, PERM_USER));
      KernelMappedKept(s, s1);
      ProtectSegmentStays(s1, p, v + 1, n - 1);
    }
  }

  lemma CopySegmentStays(s: State, p: nat, segment: Segment)
    requires Loading(s, p) && segment.InUserArea() && CopySegment(s, p, segment).Some?
    ensures Loading(CopySegment(s, p, segment).value, p)
  {
    var v, n := segment.first, |segment.contents|;
    if segment.contents != [] {
      assert UserPage(v) && UserPage(v + n - 1);
    }
    AllocSegmentStays(s, p, v, n);
    var filled := FillSegment(AllocSegment(s, p, v, n).value, v, segment.contents);
    FillSegmentStays(AllocSegment(s, p, v, n).value, p, v, segment.contents);
    if !segment.writable {
      ProtectSegmentStays(filled, p, v, n);
    }
  }

  lemma {:induction false} LoadSegmentsStays(s: State, p: nat, segments: seq<Segment>)
    requires Loading(s, p) && (forall i :: 0 <= i < |segments| ==> segments[i].InUserArea())
    requires LoadSegments(s, p, segments).Some?
    ensures Loading(LoadSegments(s, p, segments).value, p)
    decreases segments
  {
    if segments != [] {
      CopySegmentStays(s, p, segments[0]);
      LoadSegmentsStays(CopySegment(s, p, segments[0]).value, p, segments[1..]);
    }
  }

  lemma CanCreateFromKernel(s: State, p: nat, d: nat, t: nat)
    requires Inv(s) && KernelMapped(s) && 1 <= p < L.nproc && s.procs[p].state == P_FREE
    requires d in FreePages(s) && t in FreePages(s) && d != t
    ensures CanCreate(s, p, d, t, L.kernelDir)
  {
    forall v | 0 <= v < L.start
      ensures LowEntryOk(s, L.kernelDir, v)
    {
      assert Translate(s.mem, L.kernelDir, 0, v) == KernelEntry(v);
    }
  }

  /** The new process starts with the kernel's mappings below the user area. */
  lemma CreateFromKernel(s: State, p: nat, d: nat, t: nat, registers: Registers, s0: State)
    requires Inv(s) && KernelMapped(s) && 1 <= p < L.nproc && s.procs[p].state == P_FREE
    requires d in FreePages(s) && t in FreePages(s) && d != t
    requires s0 == Created(s, p, d, t, registers, L.kernelDir)
    ensures Loading(s0, p)
  {
    CanCreateFromKernel(s, p, d, t);
    CreateKeepsInv(s, p, d, t, registers, L.kernelDir);
    KernelMappedKept(s, s0);
  }

  lemma GiveStackStays(s: State, p: nat)
    requires Loading(s, p) && GiveStack(s, p).Some?
    ensures Loading(GiveStack(s, p).value, p)
  {
    var g := Alloc(s).value;
    GrantStays(s, p, L.top - 1, g, Granted(s, p, L.top - 1, g, s.mem[g]));
  }

  lemma SetupCreates(s: State, p: nat, registers: Registers, n: State) returns (d: nat, t: nat)
    requires Inv(s) && 1 <= p < L.nproc && s.procs[p].state == P_FREE
    requires n == SetProc(s, p, Proc(p, registers, P_RUNNABLE, s.procs[p].pagedir))
    requires CopyPagedir(n, L.kernelDir, p).1.Some?
    ensures d in FreePages(s) && t in FreePages(s) && d != t
    ensures var (s1, dir) := CopyPagedir(n, L.kernelDir, p);
      dir == Some(d) && SetProc(s1, p, s1.procs[p].(pagedir := d)) == Created(s, p, d, t, registers, L.kernelDir)
  {
    InvFreeUncounted(s);
    assert FreePages(n) == FreePages(s);
    d, t := CopyPagedirOutcome(n, L.kernelDir, p);
    assert |FreePages(n)| >= 2;
  }

  /**
   * Setting up a process in a free slot keeps the invariant, and leaves it runnable. Together with BootIsGood this
   * shows that running the first process starts a run in a good state.
   */
  lemma ProcessSetupIsGood(s: State, p: nat, registers: Registers, segments: seq<Segment>)
    requires Inv(s) && KernelMapped(s) && 1 <= p < L.nproc && s.procs[p].state == P_FREE
    requires forall i :: 0 <= i < |segments| ==> segments[i].InUserArea()
    requires ProcessSetup(s, p, registers, segments).Some?
    ensures var s' := ProcessSetup(s, p, registers, segments).value;
      Loading(s', p) && Good(s'.(current := p))
  {
    var n := SetProc(s, p, Proc(p, registers, P_RUNNABLE, s.procs[p].pagedir));
    var d, t := SetupCreates(s, p, registers, n);
    var s0 := Created(s, p, d, t, registers, L.kernelDir);
    CreateFromKernel(s, p, d, t, registers, s0);
    LoadSegmentsStays(s0, p, segments);
    GiveStackStays(LoadSegments(s0, p, segments).value, p);
    LoadedRuns(ProcessSetup(s, p, registers, segments).value, p);
  }

  lemma LoadedRuns(s: State, p: nat)
    requires Loading(s, p)
    ensures Good(s.(current := p))
  {
    SameTablesKeepInv(s, s.(current := p));
  }
}
