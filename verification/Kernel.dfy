/**
 * The kernel in its own form: arrays updated in place. Each method is proved to do to the arrays what the
 * corresponding function of KernelState does to the state.
 */
module Kernel {
  import opened Wrappers
  import opened Machine
  import opened KernelState

  /** How a handler ends: by run(p), by spinning in the scheduler, or in a failed assertion or panic. */
  datatype Ending = Resumed | Spun | Stopped

  /** Ending e in state s is the outcome o. */
  predicate Ends(e: Ending, s: State, o: Outcome) {
    match e
    case Resumed => o == Running(s)
    case Spun => o == Spinning(s)
    case Stopped => o == Halted
  }

  /** The two flags, in state s, tell the result r of copying pages for a child. */
  predicate Tells(copied: bool, noMemory: bool, s: State, r: CopyResult) {
    match r
    case Copied(s') => copied && !noMemory && s == s'
    case OutOfMemory(s') => noMemory && !copied && s == s'
    case CopyPanic => !copied && !noMemory
  }

  /** fork's loop, being at page v in state s unless it has ended, will have the given result. */
  predicate CopyLoopAt(copied: bool, noMemory: bool, s: State, f: nat, c: nat, v: nat, result: CopyResult) {
    && WellFormed(s) && f < L.nproc && c < L.nproc && v <= L.top
    && if copied then !noMemory && result == ForkPages(s, f, c, v) else Tells(copied, noMemory, s, result)
  }

  lemma CopyLoopEnds(copied: bool, noMemory: bool, s: State, f: nat, c: nat, v: nat, result: CopyResult)
    requires v == L.top || !copied
    requires CopyLoopAt(copied, noMemory, s, f, c, v, result)
    ensures Tells(copied, noMemory, s, result)
  {
  }

  /** What becomes of a page depends on its own count and owner, and on processes and page tables. */
  lemma FreedDependsOn(s: State, s': State, g: nat)
    requires WellFormed(s) && WellFormed(s') && g < L.npages
    requires s'.mem == s.mem && s'.procs == s.procs
    requires s'.owner[g] == s.owner[g] && s'.refcount[g] == s.refcount[g]
    ensures Freed(s', g) == Freed(s, g)
  {
    SameHeir(s, s', g, 1);
  }

  lemma {:induction false} SameHeir(s: State, s': State, g: nat, q: nat)
    requires WellFormed(s) && WellFormed(s') && q <= L.nproc
    requires s'.mem == s.mem && s'.procs == s.procs
    ensures Heir(s', g, q) == Heir(s, g, q)
    decreases L.nproc - q
  {
    if q < L.nproc {
      if q < L.nproc {
        assert forall j :: 0 <= j < L.npages ==> Pte(s', q, j) == Pte(s, q, j);
        assert ScanFinds(s', q, g) == ScanFinds(s, q, g);
      }
      SameHeir(s, s', g, q + 1);
    }
  }

  /** The mapping loop with left pages to go from v on will end with result. */
  predicate MapLoopAt(mem: Memory, dir: nat, cached: Cached, v: nat, p: nat, left: nat, perm: Word,
                      result: Option<Memory>)
  {
    && v + left <= VPAGES && p + left <= VPAGES && perm.frame == 0
    && MapFrom(mem, dir, cached, v, p, left, perm) == result
  }

  lemma MapLoopTurn(mem: Memory, dir: nat, cached: Cached, v: nat, p: nat, left: nat, perm: Word,
                    result: Option<Memory>, table: nat, mem': Memory, cached': Cached)
    requires 0 < left && MapLoopAt(mem, dir, cached, v, p, left, perm, result)
    requires TableFor(mem, dir, cached, DirSlot(v)) == Some(table)
    requires mem' == Write(mem, table, TableSlot(v), MakePte(p, perm)) && cached' == Some((DirSlot(v), table))
    ensures MapLoopAt(mem', dir, cached', v + 1, p + 1, left - 1, perm, result)
  {
  }

  lemma MapLoopFails(mem: Memory, dir: nat, cached: Cached, v: nat, p: nat, left: nat, perm: Word,
                     result: Option<Memory>)
    requires 0 < left && MapLoopAt(mem, dir, cached, v, p, left, perm, result)
    requires TableFor(mem, dir, cached, DirSlot(v)).None?
    ensures result.None?
  {
  }

  lemma MapLoopEnds(mem: Memory, dir: nat, cached: Cached, v: nat, p: nat, perm: Word, result: Option<Memory>)
    requires MapLoopAt(mem, dir, cached, v, p, 0, perm, result)
    ensures result == Some(mem)
  {
  }

  class Machinery {
    const mem: array<Page>          // physical memory
    const owner: array<int>         // pageinfo[].owner
    const refcount: array<int>      // pageinfo[].refcount
    const procs: array<Proc>        // processes[]
    var current: nat

    ghost predicate Valid()
      reads this, procs
    {
      && mem.Length == owner.Length == refcount.Length == L.npages
      && procs.Length == L.nproc
      && owner != refcount
      && current < L.nproc
      && (forall q :: 0 <= q < L.nproc ==> procs[q].pid == q)
    }

    ghost function S(): (s: State)
      requires Valid()
      reads this, mem, owner, refcount, procs
      ensures WellFormed(s)
    {
      State(mem[..], owner[..], refcount[..], procs[..], current)
    }

    constructor (s: State)
      requires WellFormed(s)
      ensures Valid() && S() == s
      ensures fresh(mem) && fresh(owner) && fresh(refcount) && fresh(procs)
    {
      mem := new Page[L.npages](i requires 0 <= i < L.npages => s.mem[i]);
      owner := new int[L.npages](i requires 0 <= i < L.npages => s.owner[i]);
      refcount := new int[L.npages](i requires 0 <= i < L.npages => s.refcount[i]);
      procs := new Proc[L.nproc](i requires 0 <= i < L.nproc => s.procs[i]);
      current := s.current;
    }

    // Page tables

    /** The word at index i of physical page pn. */
    method ReadWord(pn: nat, i: nat) returns (w: Word)
      requires i < ENTRIES
      ensures w == Read(mem[..], pn, i)
    {
      if pn < mem.Length {
        w := mem[pn][i];
      } else {
        w := ZERO;
      }
    }

    method WriteWord(pn: nat, i: nat, w: Word)
      requires i < ENTRIES
      modifies mem
      ensures mem[..] == Write(old(mem[..]), pn, i, w)
    {
      if pn < mem.Length {
        mem[pn] := mem[pn][i := w];
      }
    }

    method VirtualMemoryLookup(dir: nat, vpn: nat) returns (e: Word)
      requires vpn < VPAGES
      ensures e == Lookup(mem[..], dir, vpn)
    {
      e := ReadWord(dir, DirSlot(vpn));
      if e.present {
        var pte := ReadWord(e.frame, TableSlot(vpn));
        e := MaskBy(pte, e);
      }
      if !e.present {
        e := ZERO;
      }
    }

    /** The page table for directory slot k, unless the mapping loop's assertion fails. */
    method FindTable(dir: nat, k: nat) returns (table: Option<nat>)
      requires k < ENTRIES
      ensures table == if TableReachable(mem[..], dir, k) then Some(Read(mem[..], dir, k).frame) else None
    {
      var pde := ReadWord(dir, k);
      var own := ReadWord(dir, DirSlot(pde.frame));
      table := if pde.present && own.present then Some(pde.frame) else None;
    }

    /** The page table for directory slot k, which is only looked up if the table at hand is for another slot. */
    method CachedTable(dir: nat, k: nat, cached: Cached) returns (table: Option<nat>)
      requires k < ENTRIES
      ensures table == TableFor(mem[..], dir, cached, k)
    {
      if cached.Some? && cached.value.0 == k {
        table := Some(cached.value.1);
      } else {
        table := FindTable(dir, k);
      }
    }

    /** The mapping loop for the n pages from first on. */
    method MapPages(dir: nat, first: nat, ppn: nat, n: nat, perm: Word) returns (ok: bool)
      requires perm.frame == 0 && first + n <= VPAGES && ppn + n <= VPAGES
      modifies mem
      ensures var r := MapFrom(old(mem[..]), dir, None, first, ppn, n, perm);
        ok == r.Some? && (ok ==> mem[..] == r.value)
    {
      ok := MapLoop(dir, first, ppn, n, perm, MapFrom(mem[..], dir, None, first, ppn, n, perm));
    }

    method MapLoop(dir: nat, first: nat, ppn: nat, n: nat, perm: Word, ghost result: Option<Memory>) returns (ok: bool)
      requires MapLoopAt(mem[..], dir, None, first, ppn, n, perm, result)
      modifies mem
      ensures ok == result.Some? && (ok ==> mem[..] == result.value)
    {
      var v: nat, p: nat, left: nat := first, ppn, n;
      var cached: Cached := None;
      while left != 0
        invariant MapLoopAt(mem[..], dir, cached, v, p, left, perm, result)
      {
        var table := CachedTable(dir, DirSlot(v), cached);
        if table.None? {
          MapLoopFails(mem[..], dir, cached, v, p, left, perm, result);
          return false;
        }
        ghost var before, last := mem[..], cached;
        WriteWord(table.value, TableSlot(v), MakePte(p, perm));
        cached := Some((DirSlot(v), table.value));
        MapLoopTurn(before, dir, last, v, p, left, perm, result, table.value, mem[..], cached);
        v, p, left := v + 1, p + 1, left - 1;
      }
      MapLoopEnds(mem[..], dir, cached, v, p, perm, result);
      ok := true;
    }

    method VirtualMemoryMap(dir: nat, va: nat, pa: nat, sz: nat, perm: Word) returns (ok: bool)
      requires perm.frame == 0
      requires va < 0x1_0000_0000 && pa < 0x1_0000_0000 && sz < 0x1_0000_0000
      modifies mem
      ensures var r := Machine.VirtualMemoryMap(old(mem[..]), dir, va, pa, sz, perm);
        ok == r.Some? && (ok ==> mem[..] == r.value)
    {
      if va % 4096 == 0 && pa % 4096 == 0 && sz % 4096 == 0 && va + sz < 0x1_0000_0000 && pa + sz < 0x1_0000_0000 {
        ok := MapPages(dir, va / 4096, pa / 4096, sz / 4096, perm);
      } else {
        ok := false;
      }
    }

    // Allocation

    /** The lowest-numbered page without owner. */
    method FreeAddress() returns (g: Option<nat>)
      requires Valid()
      ensures g == FirstFree(owner[..], 0)
    {
      var i := 0;
      while i < L.npages
        invariant i <= L.npages
        invariant FirstFree(owner[..], 0) == FirstFree(owner[..], i)
      {
        if owner[i] == PO_FREE {
          return Some(i);
        }
        i := i + 1;
      }
      g := None;
    }

    /** m_alloc: a page for process o, or None; page contents are left as they are. */
    method Allocate(o: nat) returns (g: Option<nat>)
      requires Valid()
      modifies owner, refcount
      ensures Valid() && g == Alloc(old(S()))
      ensures S() == if g.Some? then Take(old(S()), g.value, o) else old(S())
    {
      g := FreeAddress();
      if g.Some? {
        if refcount[g.value] != 0 {
          return None;
        }
        refcount[g.value] := 1;
        owner[g.value] := o;
      }
    }

    /** copy_pagedir */
    method CopyPagedir(dir: nat, o: nat) returns (d: Option<nat>)
      requires Valid()
      modifies owner, refcount, mem
      ensures Valid() && (S(), d) == KernelState.CopyPagedir(old(S()), dir, o)
    {
      d := Allocate(o);
      var t := Allocate(o);
      if d.None? || t.None? {
        return None;
      }
      mem[d.value] := DirectoryFor(t.value);
      mem[t.value] := TableFrom(mem[..], dir);
    }

    // Releasing memory

    /** Scan the first npages virtual pages of process q for physical page g. */
    method Scan(q: nat, g: nat) returns (found: bool)
      requires Valid() && q < L.nproc
      ensures found == ScanFinds(S(), q, g)
    {
      var j := 0;
      while j < L.npages
        invariant j <= L.npages
        invariant forall i :: 0 <= i < j ==> Pte(S(), q, i).frame != g
      {
        var e := VirtualMemoryLookup(procs[q].pagedir, j);
        LookupLow(mem[..], procs[q].pagedir, j);
        if e.frame == g {
          assert Pte(S(), q, j).frame == g;
          return true;
        }
        j := j + 1;
      }
      found := false;
    }

    /** The lowest-numbered runnable process that maps page g. */
    method FindHeir(g: nat) returns (heir: Option<nat>)
      requires Valid()
      ensures heir == Heir(S(), g, 1)
    {
      var i := 1;
      while i < L.nproc
        invariant 1 <= i <= L.nproc
        invariant Heir(S(), g, 1) == Heir(S(), g, i)
      {
        if procs[i].state == P_RUNNABLE {
          var found := Scan(i, g);
          if found {
            return Some(i);
          }
        }
        i := i + 1;
      }
      heir := None;
    }

    /** m_free; false if its assertion fails. */
    method Free(g: nat) returns (ok: bool)
      requires Valid() && g < L.npages
      modifies owner, refcount
      ensures Valid() && ok == Freed(old(S()), g).Some?
      ensures ok ==> S() == old(S()).(refcount := old(refcount[..])[g := Freed(old(S()), g).value.0],
                                      owner := old(owner[..])[g := Freed(old(S()), g).value.1])
    {
      ghost var s := S();
      refcount[g] := Int8(refcount[g] - 1);
      if refcount[g] < 0 {
        return false;
      } else if refcount[g] == 0 {
        owner[g] := PO_FREE;
      } else {
        var heir := FindHeir(g);
        SameHeir(s, S(), g, 1);
        if heir.Some? {
          owner[g] := heir.value;
        }
      }
      ok := true;
    }

    /** The first loop of m_releaseMemoryforProcess. */
    method FreeOwned(p: nat) returns (ok: bool)
      requires Valid() && p < L.nproc
      modifies owner, refcount
      ensures Valid()
      ensures !ok ==> exists g :: 0 <= g < L.npages && old(owner[g]) == p && Freed(old(S()), g).None?
      ensures ok ==>
                && S() == old(S()).(owner := owner[..], refcount := refcount[..])
                && forall g :: 0 <= g < L.npages ==>
                     && (old(owner[g]) == p ==> Freed(old(S()), g).Some?)
                     && (refcount[g], owner[g]) == AfterRelease(old(S()), p, g)
    {
      ghost var s := S();
      var i := 0;
      while i < L.npages
        invariant i <= L.npages && Valid() && S() == s.(owner := owner[..], refcount := refcount[..])
        invariant forall g :: 0 <= g < i ==>
                    && (s.owner[g] == p ==> Freed(s, g).Some?)
                    && (refcount[g], owner[g]) == AfterRelease(s, p, g)
        invariant forall g :: i <= g < L.npages ==> owner[g] == s.owner[g] && refcount[g] == s.refcount[g]
      {
        if owner[i] == p {
          FreedDependsOn(s, S(), i);
          ok := Free(i);
          if !ok {
            return;
          }
        }
        i := i + 1;
      }
      ok := true;
    }

    /** m_releaseMemoryforProcess; false if one of its assertions fails. */
    method ReleaseProcess(p: nat) returns (ok: bool)
      requires Valid() && p < L.nproc
      modifies owner, refcount, procs
      ensures Valid() && ok == Release(old(S()), p).Some?
      ensures ok ==> S() == Release(old(S()), p).value
    {
      ghost var s := S();
      procs[p] := procs[p].(state := P_BLOCKED);
      ghost var b := S();
      assert b == SetState(s, p, P_BLOCKED);
      ok := FreeOwned(p);
      if !ok {
        ghost var g :| 0 <= g < L.npages && b.owner[g] == p && Freed(b, g).None?;
        assert Stuck(b, p, g);
        return;
      }
      var i := 0;
      while i < L.npages
        invariant i <= L.npages
        invariant forall g :: 0 <= g < i ==> owner[g] != p
      {
        if owner[i] == p {
          assert Stuck(b, p, i);
          return false;
        }
        i := i + 1;
      }
      procs[p] := procs[p].(state := P_FREE);
      assert forall g :: 0 <= g < L.npages ==> !Stuck(b, p, g);
    }

    // Scheduling

    /** run(p) */
    method Run(p: nat) returns (e: Ending)
      requires Valid() && p < L.nproc
      modifies this`current
      ensures Valid() && Ends(e, S(), Resume(old(S()), p))
    {
      if procs[p].state == P_RUNNABLE {
        current := p;
        e := Resumed;
      } else {
        e := Stopped;
      }
    }

    /** The scheduler's endless loop; after a full round without a runnable process nothing will ever change. */
    method PickNext() returns (e: Ending)
      requires Valid()
      modifies this`current
      ensures Valid() && Ends(e, S(), Schedule(old(S())))
    {
      var pid: nat := current;
      var turns: nat := 0;
      while turns < L.nproc
        invariant turns <= L.nproc && pid < L.nproc && S() == old(S())
        invariant NextRunnable(S(), S().current, L.nproc) == NextRunnable(S(), pid, L.nproc - turns)
      {
        pid := (pid + 1) % L.nproc;
        if procs[pid].state == P_RUNNABLE {
          e := Run(pid);
          return;
        }
        turns := turns + 1;
      }
      e := Spun;
    }

    method SetReturnValue(q: nat, eax: Register)
      requires Valid() && q < L.nproc
      modifies procs
      ensures Valid() && S() == SetEax(old(S()), q, eax)
    {
      procs[q] := procs[q].(registers := procs[q].registers.(eax := eax));
    }

    // System calls

    method Exit() returns (e: Ending)
      requires Valid()
      modifies this`current, owner, refcount, procs
      ensures Valid() && Ends(e, S(), SysExit(old(S())))
    {
      var ok := ReleaseProcess(current);
      if !ok {
        return Stopped;
      }
      e := PickNext();
    }

    method PageAlloc() returns (e: Ending)
      requires Valid()
      modifies this`current, mem, owner, refcount, procs
      ensures Valid() && Ends(e, S(), SysPageAlloc(old(S())))
    {
      var g := Allocate(current);
      if g.None? {
        SetReturnValue(current, MINUS_ONE);
        e := Run(current);
        return;
      }
      var p := procs[current];
      var ok := VirtualMemoryMap(p.pagedir, p.registers.eax, g.value * 4096, PAGESIZE, PERM_USER_WRITE);
      if !ok {
        return Stopped;
      }
      SetReturnValue(current, g.value * 4096);
      e := Run(current);
    }

    /** The lowest-numbered free process slot from 1 on. */
    method FindSlot() returns (slot: Option<nat>)
      requires Valid()
      ensures slot == FreeSlot(S(), 1)
    {
      var i := 1;
      while i < L.nproc
        invariant 1 <= i <= L.nproc
        invariant FreeSlot(S(), 1) == FreeSlot(S(), i)
      {
        if procs[i].state == P_FREE {
          return Some(i);
        }
        i := i + 1;
      }
      slot := None;
    }

    /** Map one page of the first four megabytes of process q. */
    method MapOne(q: nat, v: nat, g: nat, perm: Word) returns (ok: bool)
      requires Valid() && q < L.nproc && v < ENTRIES && g < ENTRIES && perm.frame == 0
      modifies mem
      ensures var r := SetEntry(old(mem[..]), procs[q].pagedir, 0, v, MakePte(g, perm));
        ok == r.Some? && (ok ==> mem[..] == r.value)
    {
      MapOnePage(mem[..], procs[q].pagedir, v * 4096, g, perm);
      ok := VirtualMemoryMap(procs[q].pagedir, v * 4096, g * 4096, PAGESIZE, perm);
    }

    /** One turn of fork's loop. */
    method CopyPage(f: nat, c: nat, v: nat) returns (copied: bool, noMemory: bool)
      requires Valid() && f < L.nproc && c < L.nproc && v < L.top
      modifies mem, owner, refcount
      ensures Valid() && Tells(copied, noMemory, S(), ForkPage(old(S()), f, c, v))
    {
      var e := VirtualMemoryLookup(procs[f].pagedir, v);
      LookupLow(mem[..], procs[f].pagedir, v);
      copied, noMemory := true, false;
      if Writable(e) {
        var g := Allocate(c);
        if g.None? {
          return false, true;
        }
        mem[g.value] := ReadPage(mem[..], e.frame);
        copied := MapOne(c, v, g.value, PERM_USER_WRITE);
      } else if Readable(e) {
        if e.frame >= L.npages {
          return false, false;
        }
        copied := MapOne(c, v, e.frame, PERM_USER);
        if copied {
          refcount[e.frame] := Int8(refcount[e.frame] + 1);
        }
      }
    }

    method CopyTurn(f: nat, c: nat, v: nat, ghost v': nat, ghost result: CopyResult)
      returns (copied: bool, noMemory: bool)
      requires Valid() && f < L.nproc && c < L.nproc && v < L.top && v' == v + 1
      requires CopyLoopAt(true, false, S(), f, c, v, result)
      modifies mem, owner, refcount
      ensures Valid() && CopyLoopAt(copied, noMemory, S(), f, c, v', result)
    {
      ghost var first := ForkPagesUnfold(S(), f, c, v, v', result);
      copied, noMemory := CopyPage(f, c, v);
    }

    /** fork's loop */
    method CopyPages(f: nat, c: nat) returns (copied: bool, noMemory: bool)
      requires Valid() && f < L.nproc && c < L.nproc
      modifies mem, owner, refcount
      ensures Valid() && Tells(copied, noMemory, S(), ForkPages(old(S()), f, c, L.start))
    {
      ghost var result := ForkPages(S(), f, c, L.start);
      var v := L.start;
      copied, noMemory := true, false;
      while v < L.top && copied
        invariant v <= L.top && Valid()
        invariant CopyLoopAt(copied, noMemory, S(), f, c, v, result)
        decreases L.top - v
      {
        var v' := v + 1;
        copied, noMemory := CopyTurn(f, c, v, v', result);
        v := v';
      }
      CopyLoopEnds(copied, noMemory, S(), f, c, v, result);
    }

    method Abort(father: nat, c: nat) returns (e: Ending)
      requires Valid() && father == current && c < L.nproc
      modifies this`current, owner, refcount, procs
      ensures Valid() && Ends(e, S(), AbortFork(old(S()), c))
    {
      var ok := ReleaseProcess(c);
      if !ok {
        return Stopped;
      }
      SetReturnValue(father, MINUS_ONE);
      e := Run(father);
    }

    method Fork() returns (e: Ending)
      requires Valid()
      modifies this`current, mem, owner, refcount, procs
      ensures Valid() && Ends(e, S(), SysFork(old(S())))
    {
      var father := current;
      var slot := FindSlot();
      if slot.None? {
        SetReturnValue(father, MINUS_ONE);
        e := Run(father);
        return;
      }
      var c := slot.value;
      procs[c] := Proc(c, procs[father].registers.(eax := 0), P_RUNNABLE, procs[c].pagedir);
      assert S() == NewChild(old(S()), c);
      var dir := CopyPagedir(procs[father].pagedir, c);
      if dir.None? {
        e := Abort(father, c);
        return;
      }
      procs[c] := procs[c].(pagedir := dir.value);
      var copied, noMemory := CopyPages(father, c);
      if noMemory {
        e := Abort(father, c);
      } else if copied {
        SetReturnValue(father, c);
        e := Run(father);
      } else {
        e := Stopped;
      }
    }

    // Interrupts

    /** One directory's assertions in virtual_memory_check. */
    method CheckDirectory(d: nat, o: int, n: int) returns (ok: bool)
      requires Valid()
      ensures ok == DirectoryChecked(S(), d, o, n)
    {
      if !(d < L.npages && owner[d] == o && refcount[d] == n) {
        return false;
      }
      var k := 0;
      while k < ENTRIES
        invariant k <= ENTRIES
        invariant forall i :: 0 <= i < k && Read(S().mem, d, i).present ==>
                    var t := Read(S().mem, d, i).frame;
                    t < L.npages && owner[t] == o && refcount[t] == 1
      {
        var pte := ReadWord(d, k);
        if pte.present && !(pte.frame < L.npages && owner[pte.frame] == o && refcount[pte.frame] == 1) {
          return false;
        }
        k := k + 1;
      }
      ok := true;
    }

    /** How many processes use the kernel's own directory. */
    method CountKernelDirUsers() returns (n: nat)
      requires Valid()
      ensures n == |UsersOfKernelDir(S())|
    {
      n := 0;
      var pid := 0;
      ghost var users: set<nat> := {};
      while pid < L.nproc
        invariant pid <= L.nproc
        invariant n == |users|
        invariant users == set q: nat | q < pid && procs[q].state != P_FREE && procs[q].pagedir == L.kernelDir
      {
        if procs[pid].state != P_FREE && procs[pid].pagedir == L.kernelDir {
          users := users + {pid};
          n := n + 1;
        }
        pid := pid + 1;
      }
      assert users == UsersOfKernelDir(S());
    }

    /** virtual_memory_check; false if one of its assertions fails. */
    method VirtualMemoryCheck() returns (ok: bool)
      requires Valid()
      ensures ok == Checked(S())
    {
      if procs[0].state != P_FREE {
        return false;
      }
      var n := CountKernelDirUsers();
      ok := CheckDirectory(L.kernelDir, PO_KERNEL, 1 + n);
      if !ok {
        return;
      }
      var pid := 0;
      while pid < L.nproc
        invariant pid <= L.nproc
        invariant forall q :: 0 <= q < pid && procs[q].state != P_FREE && procs[q].pagedir != L.kernelDir ==>
                    DirectoryChecked(S(), procs[q].pagedir, q, 1)
      {
        if procs[pid].state != P_FREE && procs[pid].pagedir != L.kernelDir {
          ok := CheckDirectory(procs[pid].pagedir, pid, 1);
          if !ok {
            return;
          }
        }
        pid := pid + 1;
      }
      var pn := 0;
      while pn < L.npages
        invariant pn <= L.npages
        invariant forall g :: 0 <= g < pn && refcount[g] > 0 && owner[g] >= 0 ==>
                    owner[g] < L.nproc && procs[owner[g]].state != P_FREE
      {
        if refcount[pn] > 0 && owner[pn] >= 0 && !(owner[pn] < L.nproc && procs[owner[pn]].state != P_FREE) {
          return false;
        }
        pn := pn + 1;
      }
      ok := true;
    }

    /** The interrupt handler, entered with the registers of the interrupted program. */
    method Handle(registers: Registers, cause: Cause) returns (e: Ending)
      requires Valid()
      modifies this`current, mem, owner, refcount, procs
      ensures Valid() && Ends(e, S(), Interrupt(old(S()), registers, cause))
    {
      procs[current] := procs[current].(registers := registers);
      assert S() == SaveRegisters(old(S()), registers);
      var ok := VirtualMemoryCheck();
      if !ok {
        return Stopped;
      }
      match cause
      case SyscallPanic => e := Stopped;
      case SyscallExit => e := Exit();
      case SyscallGetpid =>
        SetReturnValue(current, procs[current].pid);
        e := Run(current);
      case SyscallYield => e := PickNext();
      case SyscallPageAlloc => e := PageAlloc();
      case SyscallFork => e := Fork();
      case Timer => e := PickNext();
      case PageFault(user) =>
        if user {
          procs[current] := procs[current].(state := P_BROKEN);
          e := PickNext();
        } else {
          e := Stopped;
        }
      case Unexpected => e := Stopped;
    }

    /** A store by the running program, as the hardware carries it out. */
    method StoreWord(page: nat, index: nat, word: Word)
      requires Valid() && page < VPAGES && index < ENTRIES
      modifies mem
      ensures Valid() && S() == UserStore(old(S()), page, index, word)
    {
      var pte := VirtualMemoryLookup(procs[current].pagedir, page);
      if Writable(pte) {
        WriteWord(pte.frame, index, word);
      }
    }
  }
}
