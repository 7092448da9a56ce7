/** Common value types. */
module Wrappers {
  datatype Option<+T> = None | Some(value: T)

  type Byte = b: int | 0 <= b < 256
}

/** Facts about finite sets and sequences that the proofs share. */
module Collections {
  /** A subset has at most as many elements. */
  lemma {:induction false} SubsetSize<T>(a: set<T>, b: set<T>)
    requires a <= b
    ensures |a| <= |b|
    decreases a
  {
    if a != {} {
      var x :| x in a;
      SubsetSize(a - {x}, b - {x});
    }
  }

  /** A subset with as many elements is the whole set. */
  lemma SubsetSameSize<T>(a: set<T>, b: set<T>)
    requires a <= b && |a| == |b|
    ensures a == b
  {
    if x :| x in b && x !in a {
      SubsetSize(a, b - {x});
    }
  }

  /** A set of natural numbers below n has at most n elements, and exactly n when it is all of them. */
  lemma {:induction false} BelowSize(s: set<nat>, n: nat)
    requires forall x :: x in s ==> x < n
    ensures |s| <= n
    ensures (forall x :: 0 <= x < n ==> x in s) ==> |s| == n
    decreases n
  {
    if n == 0 {
      assert s == {};
    } else {
      BelowSize(s - {n - 1}, n - 1);
    }
  }
}

/**
 * The part of the x86 that the kernel relies on: 32-bit words, pages of 1024 words, physical memory,
 * and two-level page tables that are themselves stored in physical pages.
 */
module Machine {
  import opened Wrappers

  const ENTRIES: nat := 1024            // words in a page, entries in a page table
  const PAGESIZE: nat := 4096
  const VPAGES: nat := 0x10_0000        // virtual pages in a 32-bit address space

  /**
   * A 32-bit word, split the way the hardware splits a page-table entry: a 20-bit page number, nine bits that
   * the kernel does not use, and the flags PTE_U, PTE_W and PTE_P.
   */
  datatype WordParts = Word(frame: nat, bits: nat, user: bool, write: bool, present: bool)
  type Word = w: WordParts | w.frame < 0x10_0000 && w.bits < 512 witness WordParts.Word(0, 0, false, false, false)
  type Page = p: seq<Word> | |p| == 1024 ghost witness seq(1024, _ => ZERO)
  type Memory = seq<Page>

  const ZERO: Word := WordParts.Word(0, 0, false, false, false)

  // Permission bits, as the third argument of an address `pa | perm`
  const PERM_USER: Word := WordParts.Word(0, 0, true, false, true)         // PTE_P | PTE_U
  const PERM_USER_WRITE: Word := WordParts.Word(0, 0, true, true, true)    // PTE_P | PTE_W | PTE_U
  const PERM_KERNEL: Word := WordParts.Word(0, 0, false, true, true)       // PTE_P | PTE_W

  function ZeroPage(): (p: Page) {
    seq(1024, _ => ZERO)
  }

  // Words as numbers

  function Value(w: Word): nat {
    w.frame * 4096 + w.bits * 8
    + (if w.user then 4 else 0) + (if w.write then 2 else 0) + (if w.present then 1 else 0)
  }

  function OfValue(n: nat): Word
    requires n < 0x1_0000_0000
  {
    WordParts.Word(n / 4096, n % 4096 / 8, n % 8 >= 4, n % 4 >= 2, n % 2 == 1)
  }

  /** Words are exactly the 32-bit numbers: PAGENUMBER is a shift by 12, PTE_P, PTE_W and PTE_U are bits 0, 1 and 2. */
  lemma WordsAreNumbers(w: Word)
    ensures Value(w) < 0x1_0000_0000 && OfValue(Value(w)) == w
  {
    var low := (if w.user then 4 else 0) + (if w.write then 2 else 0) + (if w.present then 1 else 0);
    SplitNumber(w.frame, w.bits, low);
    LowRemainders(w.frame * 512 + w.bits, low);
  }

  lemma NumbersAreWords(n: nat)
    requires n < 0x1_0000_0000
    ensures Value(OfValue(n)) == n
  {
    NumberOfParts(n / 4096, n % 4096 / 8, n % 4096 % 8);
  }

  lemma NumberOfParts(frame: nat, bits: nat, low: nat)
    requires frame < VPAGES && bits < 512 && low < 8
    ensures Value(OfValue(frame * 4096 + bits * 8 + low)) == frame * 4096 + bits * 8 + low
  {
    SplitNumber(frame, bits, low);
    LowRemainders(frame * 512 + bits, low);
    assert low == (if low >= 4 then 4 else 0) + (if low % 4 >= 2 then 2 else 0) + (if low % 2 == 1 then 1 else 0);
  }

  lemma SplitNumber(frame: nat, bits: nat, low: nat)
    requires bits < 512 && low < 8
    ensures (frame * 4096 + bits * 8 + low) / 4096 == frame
    ensures (frame * 4096 + bits * 8 + low) % 4096 / 8 == bits
  {
    assert (frame * 4096 + bits * 8 + low) % 4096 == bits * 8 + low;
  }

  lemma LowRemainders(high: nat, r: nat)
    ensures (8 * high + r) % 4 == r % 4
    ensures (8 * high + r) % 2 == r % 2
    ensures (8 * high + r) % 8 == r % 8
  {
    LowTwoBits(2 * high, r);
    LowBit(4 * high, r);
    LowThreeBits(high, r);
  }

  lemma LowTwoBits(i: nat, r: nat)
    ensures (4 * i + r) % 4 == r % 4
  {
  }

  lemma LowBit(i: nat, r: nat)
    ensures (2 * i + r) % 2 == r % 2
  {
  }

  lemma LowThreeBits(i: nat, r: nat)
    ensures (8 * i + r) % 8 == r % 8
  {
  }

  // Page-table entries

  /** What a user program may read, respectively write, through entry e. */
  predicate Readable(e: Word) { e.present && e.user }
  predicate Writable(e: Word) { e.present && e.user && e.write }

  /** The entry `pa | perm` for the page-aligned address of physical page pn. */
  function MakePte(pn: nat, perm: Word): Word
    requires pn < VPAGES && perm.frame == 0
  {
    perm.(frame := pn)
  }

  /** `pte & (pde | ~(PTE_W | PTE_U))`: a page is writable or user-accessible only if its directory entry is. */
  function MaskBy(pte: Word, pde: Word): Word {
    pte.(user := pte.user && pde.user, write := pte.write && pde.write)
  }

  function Normal(e: Word): Word {
    if e.present then e else ZERO
  }

  // Physical memory. Addresses past the end of memory read as zero and ignore writes.

  function ReadPage(mem: Memory, pn: nat): Page {
    if pn < |mem| then mem[pn] else ZeroPage()
  }

  function Read(mem: Memory, pn: nat, i: nat): Word
    requires i < ENTRIES
  {
    ReadPage(mem, pn)[i]
  }

  function Write(mem: Memory, pn: nat, i: nat, w: Word): (r: Memory)
    requires i < ENTRIES
    ensures |r| == |mem|
  {
    if pn < |mem| then mem[pn := mem[pn][i := w]] else mem
  }

  // Page tables

  /** The directory slot, respectively the table slot, that translates virtual page vpn. */
  function DirSlot(vpn: nat): (k: nat)
    requires vpn < VPAGES
    ensures k < ENTRIES
  {
    vpn / 1024
  }

  function TableSlot(vpn: nat): (k: nat)
    ensures k < ENTRIES
  {
    vpn % 1024
  }

  /** Translation through slot k of the directory and slot i of the table found there. */
  function Translate(mem: Memory, dir: nat, k: nat, i: nat): Word
    requires k < ENTRIES && i < ENTRIES
  {
    var pde := Read(mem, dir, k);
    if pde.present then Normal(MaskBy(Read(mem, pde.frame, i), pde)) else ZERO
  }

  /** virtual_memory_lookup: the entry for virtual page vpn, or 0 if the page is not mapped. */
  function Lookup(mem: Memory, dir: nat, vpn: nat): Word
    requires vpn < VPAGES
  {
    Translate(mem, dir, DirSlot(vpn), TableSlot(vpn))
  }

  /** Pages of the first four megabytes are translated through directory slot 0. */
  lemma LookupLow(mem: Memory, dir: nat, vpn: nat)
    requires vpn < ENTRIES
    ensures DirSlot(vpn) == 0 && TableSlot(vpn) == vpn
    ensures Lookup(mem, dir, vpn) == Translate(mem, dir, 0, vpn)
  {
  }

  /** The kernel can write the page table for directory slot k: the table exists and is itself mapped. */
  predicate TableReachable(mem: Memory, dir: nat, k: nat)
    requires k < ENTRIES
  {
    var pde := Read(mem, dir, k);
    pde.present && Read(mem, dir, DirSlot(pde.frame)).present
  }

  /** Set slot i of the page table in directory slot k; None when the table cannot be reached. */
  function SetEntry(mem: Memory, dir: nat, k: nat, i: nat, e: Word): (r: Option<Memory>)
    requires k < ENTRIES && i < ENTRIES
    ensures r.Some? ==> |r.value| == |mem|
  {
    if TableReachable(mem, dir, k) then Some(Write(mem, Read(mem, dir, k).frame, i, e)) else None
  }

  /** One turn of the mapping loop; None when its assertion fails. */
  function MapPage(mem: Memory, dir: nat, vpn: nat, ppn: nat, perm: Word): (r: Option<Memory>)
    requires vpn < VPAGES && ppn < VPAGES && perm.frame == 0
    ensures r.Some? ==> |r.value| == |mem|
  {
    SetEntry(mem, dir, DirSlot(vpn), TableSlot(vpn), MakePte(ppn, perm))
  }

  /** Map the n pages from vpn on to the n physical pages from ppn on. */
  function MapRange(mem: Memory, dir: nat, vpn: nat, ppn: nat, n: nat, perm: Word): (r: Option<Memory>)
    requires vpn + n <= VPAGES && ppn + n <= VPAGES && perm.frame == 0
    ensures r.Some? ==> |r.value| == |mem|
    decreases n
  {
    if n == 0 then Some(mem) else
    var first := MapPage(mem, dir, vpn, ppn, perm);
    if first.None? then None else MapRange(first.value, dir, vpn + 1, ppn + 1, n - 1, perm)
  }

  /** No page table of dir is the directory itself, and different slots use different tables. */
  predicate Unaliased(mem: Memory, dir: nat) {
    && dir < |mem|
    && (forall k :: 0 <= k < ENTRIES ==> TableInMemory(mem, dir, k))
    && (forall k, l :: 0 <= k < l < ENTRIES ==> TablesApart(mem, dir, k, l))
  }

  predicate TableInMemory(mem: Memory, dir: nat, k: nat)
    requires k < ENTRIES
  {
    var pde := Read(mem, dir, k);
    pde.present ==> pde.frame < |mem| && pde.frame != dir
  }

  predicate TablesApart(mem: Memory, dir: nat, k: nat, l: nat)
    requires k < ENTRIES && l < ENTRIES
  {
    Read(mem, dir, k).present && Read(mem, dir, l).present ==> Read(mem, dir, k).frame != Read(mem, dir, l).frame
  }

  /** Physical page pn holds one of dir's page tables. */
  ghost predicate IsTableOf(mem: Memory, dir: nat, pn: nat) {
    exists k :: 0 <= k < ENTRIES && Read(mem, dir, k).present && Read(mem, dir, k).frame == pn
  }

  /** What Lookup must return for page v once it is mapped to ppn with perm under the directory of mem. */
  function Mapped(mem: Memory, dir: nat, v: nat, ppn: nat, perm: Word): Word
    requires v < VPAGES && ppn < VPAGES && perm.frame == 0
  {
    Normal(MaskBy(MakePte(ppn, perm), Read(mem, dir, DirSlot(v))))
  }

  /**
   * mem' is mem after an update of dir's flat map from virtual pages to entries: exactly the n pages from vpn on
   * change, each to its own physical page, with W and U masked by the directory entry; nothing but page tables
   * of dir is written.
   */
  ghost predicate IsUpdate(mem: Memory, mem': Memory, dir: nat, vpn: nat, ppn: nat, n: nat, perm: Word)
    requires vpn + n <= VPAGES && ppn + n <= VPAGES && perm.frame == 0
  {
    && |mem'| == |mem|
    && ReadPage(mem', dir) == ReadPage(mem, dir)
    && (forall v :: 0 <= v < VPAGES ==> UpdatedAt(mem, mem', dir, vpn, ppn, n, perm, v))
    && (forall g :: 0 <= g < |mem| ==> WrittenOnlyAsTable(mem, mem', dir, g))
  }

  ghost predicate WrittenOnlyAsTable(mem: Memory, mem': Memory, dir: nat, g: nat)
    requires g < |mem| == |mem'|
  {
    mem'[g] == mem[g] || IsTableOf(mem, dir, g)
  }

  ghost predicate UpdatedAt(mem: Memory, mem': Memory, dir: nat, vpn: nat, ppn: nat, n: nat, perm: Word, v: nat)
    requires vpn + n <= VPAGES && ppn + n <= VPAGES && perm.frame == 0 && v < VPAGES
  {
    Lookup(mem', dir, v) ==
      if vpn <= v < vpn + n then Mapped(mem, dir, v, ppn + (v - vpn), perm) else Lookup(mem, dir, v)
  }

  /** A single mapping updates the flat map in one place. */
  lemma MapPageIsUpdate(mem: Memory, dir: nat, vpn: nat, ppn: nat, perm: Word)
    requires vpn < VPAGES && ppn < VPAGES && perm.frame == 0
    requires Unaliased(mem, dir) && TableReachable(mem, dir, DirSlot(vpn))
    ensures IsUpdate(mem, MapPage(mem, dir, vpn, ppn, perm).value, dir, vpn, ppn, 1, perm)
  {
    var mem' := MapPage(mem, dir, vpn, ppn, perm).value;
    var t := Read(mem, dir, DirSlot(vpn)).frame;
    assert IsTableOf(mem, dir, t) && TableInMemory(mem, dir, DirSlot(vpn));
    forall v | 0 <= v < VPAGES
      ensures UpdatedAt(mem, mem', dir, vpn, ppn, 1, perm, v)
    {
      assert Read(mem', dir, DirSlot(v)) == Read(mem, dir, DirSlot(v));
      assert v == ENTRIES * DirSlot(v) + TableSlot(v);
      assert DirSlot(v) < DirSlot(vpn) ==> TablesApart(mem, dir, DirSlot(v), DirSlot(vpn));
      assert DirSlot(vpn) < DirSlot(v) ==> TablesApart(mem, dir, DirSlot(vpn), DirSlot(v));
    }
  }

  /** Only the directory page decides which tables exist and how they mask their entries. */
  lemma SameDirectory(mem: Memory, mem': Memory, dir: nat)
    requires |mem'| == |mem| && ReadPage(mem', dir) == ReadPage(mem, dir)
    ensures Unaliased(mem', dir) == Unaliased(mem, dir)
    ensures forall k :: 0 <= k < ENTRIES ==> TableReachable(mem', dir, k) == TableReachable(mem, dir, k)
    ensures forall g :: IsTableOf(mem', dir, g) == IsTableOf(mem, dir, g)
  {
    assert forall k :: 0 <= k < ENTRIES ==> Read(mem', dir, k) == Read(mem, dir, k);
    assert forall k :: 0 <= k < ENTRIES ==> TableInMemory(mem', dir, k) == TableInMemory(mem, dir, k);
    assert forall k, l :: 0 <= k < l < ENTRIES ==> TablesApart(mem', dir, k, l) == TablesApart(mem, dir, k, l);
  }

  lemma UpdatesCompose(mem: Memory, mem1: Memory, mem2: Memory, dir: nat, vpn: nat, ppn: nat, n: nat, perm: Word)
    requires 0 < n && vpn + n <= VPAGES && ppn + n <= VPAGES && perm.frame == 0
    requires IsUpdate(mem, mem1, dir, vpn, ppn, 1, perm)
    requires IsUpdate(mem1, mem2, dir, vpn + 1, ppn + 1, n - 1, perm)
    ensures IsUpdate(mem, mem2, dir, vpn, ppn, n, perm)
  {
    SameDirectory(mem, mem1, dir);
    forall v | 0 <= v < VPAGES
      ensures UpdatedAt(mem, mem2, dir, vpn, ppn, n, perm, v)
    {
      assert UpdatedAt(mem, mem1, dir, vpn, ppn, 1, perm, v);
      assert UpdatedAt(mem1, mem2, dir, vpn + 1, ppn + 1, n - 1, perm, v);
    }
    forall g | 0 <= g < |mem|
      ensures WrittenOnlyAsTable(mem, mem2, dir, g)
    {
      assert WrittenOnlyAsTable(mem, mem1, dir, g) && WrittenOnlyAsTable(mem1, mem2, dir, g);
    }
  }

  /** The mapping loop can reach every page table that it needs. */
  predicate RangeReachable(mem: Memory, dir: nat, vpn: nat, n: nat)
    requires vpn + n <= VPAGES
  {
    forall v :: vpn <= v < vpn + n ==> TableReachable(mem, dir, DirSlot(v))
  }

  lemma RangeReachableStep(mem: Memory, mem1: Memory, dir: nat, vpn: nat, n: nat)
    requires 0 < n && vpn + n <= VPAGES
    requires |mem1| == |mem| && ReadPage(mem1, dir) == ReadPage(mem, dir)
    ensures RangeReachable(mem, dir, vpn, n) <==>
              TableReachable(mem, dir, DirSlot(vpn)) && RangeReachable(mem1, dir, vpn + 1, n - 1)
  {
    SameDirectory(mem, mem1, dir);
  }

  /** r is a correct answer to a request to map n pages: a flat update, or None if some table cannot be reached. */
  ghost predicate IsMapping(mem: Memory, dir: nat, vpn: nat, ppn: nat, n: nat, perm: Word, r: Option<Memory>)
    requires vpn + n <= VPAGES && ppn + n <= VPAGES && perm.frame == 0
  {
    && (r.Some? <==> RangeReachable(mem, dir, vpn, n))
    && (r.Some? ==> IsUpdate(mem, r.value, dir, vpn, ppn, n, perm))
  }

  lemma IsMappingStep(mem: Memory, mem1: Memory, dir: nat, vpn: nat, ppn: nat, n: nat, perm: Word, r: Option<Memory>)
    requires 0 < n && vpn + n <= VPAGES && ppn + n <= VPAGES && perm.frame == 0
    requires Unaliased(mem, dir) && MapPage(mem, dir, vpn, ppn, perm) == Some(mem1)
    requires Unaliased(mem1, dir) ==> IsMapping(mem1, dir, vpn + 1, ppn + 1, n - 1, perm, r)
    ensures IsMapping(mem, dir, vpn, ppn, n, perm, r)
  {
    MapPageIsUpdate(mem, dir, vpn, ppn, perm);
    SameDirectory(mem, mem1, dir);
    RangeReachableStep(mem, mem1, dir, vpn, n);
    if r.Some? {
      UpdatesCompose(mem, mem1, r.value, dir, vpn, ppn, n, perm);
    }
  }

  /**
   * virtual_memory_map followed by virtual_memory_lookup is an update of a flat map, and the call goes through
   * exactly when every page table of the range can be reached.
   */
  lemma {:induction false} MapRangeIsUpdate(mem: Memory, dir: nat, vpn: nat, ppn: nat, n: nat, perm: Word)
    requires vpn + n <= VPAGES && ppn + n <= VPAGES && perm.frame == 0
    requires Unaliased(mem, dir)
    ensures IsMapping(mem, dir, vpn, ppn, n, perm, MapRange(mem, dir, vpn, ppn, n, perm))
    decreases n
  {
    if n == 0 {
    } else if !TableReachable(mem, dir, DirSlot(vpn)) {
      assert !RangeReachable(mem, dir, vpn, n);
    } else {
      var mem1 := MapPage(mem, dir, vpn, ppn, perm).value;
      if Unaliased(mem1, dir) {
        MapRangeIsUpdate(mem1, dir, vpn + 1, ppn + 1, n - 1, perm);
      }
      IsMappingStep(mem, mem1, dir, vpn, ppn, n, perm, MapRange(mem1, dir, vpn + 1, ppn + 1, n - 1, perm));
    }
  }

  // The mapping loop looks a page table up only when it comes to another slot of the directory

  /** The slot that the loop has last looked up, and the table that it found there. */
  type Cached = Option<(nat, nat)>

  /** The page table for directory slot k, unless the loop's assertion fails. */
  function TableFor(mem: Memory, dir: nat, cached: Cached, k: nat): Option<nat>
    requires k < ENTRIES
  {
    if cached.Some? && cached.value.0 == k then Some(cached.value.1)
    else if TableReachable(mem, dir, k) then Some(Read(mem, dir, k).frame)
    else None
  }

  /** The mapping loop for the n pages from vpn on. */
  function MapFrom(mem: Memory, dir: nat, cached: Cached, vpn: nat, ppn: nat, n: nat, perm: Word): (r: Option<Memory>)
    requires vpn + n <= VPAGES && ppn + n <= VPAGES && perm.frame == 0
    ensures r.Some? ==> |r.value| == |mem|
    decreases n
  {
    if n == 0 then Some(mem) else
    var table := TableFor(mem, dir, cached, DirSlot(vpn));
    if table.None? then None else
    MapFrom(Write(mem, table.value, TableSlot(vpn), MakePte(ppn, perm)), dir, Some((DirSlot(vpn), table.value)),
            vpn + 1, ppn + 1, n - 1, perm)
  }

  /** What the loop has in hand is what it would find by looking the table up again. */
  predicate CacheOk(mem: Memory, dir: nat, cached: Cached) {
    cached.Some? ==>
      && cached.value.0 < ENTRIES && TableReachable(mem, dir, cached.value.0)
      && cached.value.1 == Read(mem, dir, cached.value.0).frame
  }

  /** A single page is mapped the same way whether or not its table is at hand. */
  lemma MapOneFrom(mem: Memory, dir: nat, vpn: nat, ppn: nat, perm: Word)
    requires vpn < VPAGES && ppn < VPAGES && perm.frame == 0
    ensures MapFrom(mem, dir, None, vpn, ppn, 1, perm) == MapPage(mem, dir, vpn, ppn, perm)
  {
    var table := TableFor(mem, dir, None, DirSlot(vpn));
    if table.Some? {
      var mem1 := Write(mem, table.value, TableSlot(vpn), MakePte(ppn, perm));
      assert MapFrom(mem1, dir, Some((DirSlot(vpn), table.value)), vpn + 1, ppn + 1, 0, perm) == Some(mem1);
    }
  }

  lemma MapFromTurn(mem: Memory, dir: nat, cached: Cached, vpn: nat, ppn: nat, perm: Word, mem1: Memory)
    requires vpn < VPAGES && ppn < VPAGES && perm.frame == 0 && Unaliased(mem, dir) && CacheOk(mem, dir, cached)
    requires TableReachable(mem, dir, DirSlot(vpn)) && mem1 == MapPage(mem, dir, vpn, ppn, perm).value
    ensures TableFor(mem, dir, cached, DirSlot(vpn)) == Some(Read(mem, dir, DirSlot(vpn)).frame)
    ensures Unaliased(mem1, dir) && CacheOk(mem1, dir, Some((DirSlot(vpn), Read(mem, dir, DirSlot(vpn)).frame)))
  {
    MapPageIsUpdate(mem, dir, vpn, ppn, perm);
    SameDirectory(mem, mem1, dir);
    assert Read(mem1, dir, DirSlot(vpn)) == Read(mem, dir, DirSlot(vpn));
  }

  /**
   * Holding on to the table makes no difference as long as no table is the directory itself: then the loop maps one
   * page after the other.
   */
  lemma {:induction false} MapFromIsMapRange(mem: Memory, dir: nat, cached: Cached, vpn: nat, ppn: nat, n: nat,
                                             perm: Word)
    requires vpn + n <= VPAGES && ppn + n <= VPAGES && perm.frame == 0
    requires Unaliased(mem, dir) && CacheOk(mem, dir, cached)
    ensures MapFrom(mem, dir, cached, vpn, ppn, n, perm) == MapRange(mem, dir, vpn, ppn, n, perm)
    decreases n
  {
    if n != 0 && TableReachable(mem, dir, DirSlot(vpn)) {
      var mem1 := MapPage(mem, dir, vpn, ppn, perm).value;
      var cached1 := Some((DirSlot(vpn), Read(mem, dir, DirSlot(vpn)).frame));
      MapFromTurn(mem, dir, cached, vpn, ppn, perm, mem1);
      MapFromIsMapRange(mem1, dir, cached1, vpn + 1, ppn + 1, n - 1, perm);
    }
  }

  /** virtual_memory_map with its entry assertions: alignment and no wrap-around of the ranges. */
  function VirtualMemoryMap(mem: Memory, dir: nat, va: nat, pa: nat, sz: nat, perm: Word): (r: Option<Memory>)
    requires va < 0x1_0000_0000 && pa < 0x1_0000_0000 && sz < 0x1_0000_0000 && perm.frame == 0
    ensures r.Some? ==> |r.value| == |mem|
  {
    if va % 4096 == 0 && pa % 4096 == 0 && sz % 4096 == 0 && va + sz < 0x1_0000_0000 && pa + sz < 0x1_0000_0000 then
      MapFrom(mem, dir, None, va / 4096, pa / 4096, sz / 4096, perm)
    else
      None
  }

  /**
   * The whole call, on a directory whose tables are apart: it fails exactly if an argument is not a multiple of the
   * page size, a range wraps around, or a page table that it needs is missing. Otherwise it is an update of the
   * flat map.
   */
  lemma CallIsUpdate(mem: Memory, dir: nat, va: nat, pa: nat, sz: nat, perm: Word, vpn: nat, ppn: nat, n: nat)
    requires va < 0x1_0000_0000 && pa < 0x1_0000_0000 && sz < 0x1_0000_0000 && perm.frame == 0 && Unaliased(mem, dir)
    requires vpn == va / 4096 && ppn == pa / 4096 && n == sz / 4096
    ensures var r := VirtualMemoryMap(mem, dir, va, pa, sz, perm);
      if va % 4096 != 0 || pa % 4096 != 0 || sz % 4096 != 0
         || va + sz >= 0x1_0000_0000 || pa + sz >= 0x1_0000_0000 then r.None?
      else vpn + n <= VPAGES && ppn + n <= VPAGES && IsMapping(mem, dir, vpn, ppn, n, perm, r)
  {
    if va % 4096 == 0 && pa % 4096 == 0 && sz % 4096 == 0 && va + sz < 0x1_0000_0000 && pa + sz < 0x1_0000_0000 {
      MapFromIsMapRange(mem, dir, None, vpn, ppn, n, perm);
      MapRangeIsUpdate(mem, dir, vpn, ppn, n, perm);
    }
  }

  /** Mapping a single page of the first four megabytes sets one entry. */
  lemma MapOnePage(mem: Memory, dir: nat, va: nat, ppn: nat, perm: Word)
    requires va % 4096 == 0 && va / 4096 < ENTRIES && ppn < ENTRIES && perm.frame == 0
    ensures VirtualMemoryMap(mem, dir, va, ppn * 4096, PAGESIZE, perm) ==
              SetEntry(mem, dir, 0, va / 4096, MakePte(ppn, perm))
  {
    LookupLow(mem, dir, va / 4096);
    MapOneFrom(mem, dir, va / 4096, ppn, perm);
  }
}
