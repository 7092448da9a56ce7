/**
 * The elementary changes that the kernel's operations are made of, and the proof that each keeps the invariant:
 * giving a process a fresh page, sharing a read-only page, creating a process, releasing a process, and a store
 * by a running program.
 */
module KernelSteps {
  import opened Wrappers
  import opened Collections
  import opened Machine
  import opened KernelState
  import opened KernelInvariant
  import opened KernelFrames

  /** Pages that belong to the kernel or are reserved are as they were, and process 0 stays unused. */
  lemma KernelKept(s: State, s': State)
    requires Inv(s) && WellFormed(s')
    requires s'.procs[0].state == P_FREE
    requires forall g :: 0 <= g < L.npages && s.owner[g] < 0 ==>
               s'.owner[g] == s.owner[g] && s'.refcount[g] == s.refcount[g] && s'.mem[g] == s.mem[g]
    ensures KernelOk(s')
  {
    var d := L.kernelDir;
    assert s'.mem[d] == s.mem[d];
    forall k | 0 <= k < ENTRIES && Read(s'.mem, d, k).present
      ensures var t := Read(s'.mem, d, k).frame;
        t < L.npages && s'.owner[t] == PO_KERNEL && s'.refcount[t] == 1
    {
      assert Read(s.mem, d, k).present;
      var t := Read(s.mem, d, k).frame;
      assert t < L.npages && s.owner[t] == PO_KERNEL;
    }
  }

  // A fresh page for a process

  /** Process q receives the free page g, holding content, as its writable page v. */
  function Granted(s: State, q: nat, v: nat, g: nat, content: Page): (s': State)
    requires WellFormed(s) && q < L.nproc && v < ENTRIES && g < L.npages
    ensures WellFormed(s')
  {
    Take(s, g, q).(mem := Write(s.mem[g := content], Table(s, q), v, MakePte(g, PERM_USER_WRITE)))
  }

  lemma GrantKeepsOthers(s: State, q: nat, v: nat, g: nat, content: Page, r: nat)
    requires Inv(s) && Live(s, q) && UserPage(v) && g < L.npages && s.owner[g] == PO_FREE
    requires Live(s, r) && r != q
    ensures SameTranslation(s, Granted(s, q, v, g, content), r)
    ensures ProcessOk(Granted(s, q, v, g, content), r)
  {
    var s' := Granted(s, q, v, g, content);
    assert ProcessOk(s, q) && ProcessOk(s, r);
    forall h | 0 <= h < L.npages
      ensures RightsKept(s, s', r, h)
    {
    }
    ProcessKept(s, s', r);
  }

  /** Only the entry of virtual page v changes in the receiving process. */
  lemma GrantEntries(s: State, q: nat, v: nat, g: nat, content: Page)
    requires Inv(s) && Live(s, q) && UserPage(v) && g < L.npages && s.owner[g] == PO_FREE
    ensures var s' := Granted(s, q, v, g, content);
      && DirectoryOk(s', q) && Table(s', q) == Table(s, q)
      && (forall w :: 0 <= w < ENTRIES ==>
           Pte(s', q, w) == if w == v then MakePte(g, PERM_USER_WRITE) else Pte(s, q, w))
  {
    var s' := Granted(s, q, v, g, content);
    assert ProcessOk(s, q);
    var d := s.procs[q].pagedir;
    assert s'.mem[d] == s.mem[d];
    assert forall k :: 0 <= k < ENTRIES ==> Read(s'.mem, d, k) == Read(s.mem, d, k);
    assert DirectoryOk(s', q);
    forall w | 0 <= w < ENTRIES
      ensures Pte(s', q, w) == if w == v then MakePte(g, PERM_USER_WRITE) else Pte(s, q, w)
    {
      PteIsTableEntry(s, q, w);
      PteIsTableEntry(s', q, w);
    }
  }

  lemma GrantKeepsReceiver(s: State, q: nat, v: nat, g: nat, content: Page)
    requires Inv(s) && Live(s, q) && UserPage(v) && g < L.npages && s.owner[g] == PO_FREE
    ensures ProcessOk(Granted(s, q, v, g, content), q)
  {
    var s' := Granted(s, q, v, g, content);
    assert ProcessOk(s, q);
    GrantEntries(s, q, v, g, content);
    forall w | 0 <= w < ENTRIES
      ensures EntryOk(s', q, w, Pte(s', q, w))
    {
      assert EntryOk(s, q, w, Pte(s, q, w));
    }
    forall w, w' | L.start <= w < w' < L.top
      ensures MappedOnce(s', q, w, w')
    {
      assert MappedOnce(s, q, w, w');
      NotMappedWhenFree(s, q, w, g);
      NotMappedWhenFree(s, q, w', g);
    }
  }

  /** No entry of the user area points to a free page. */
  lemma NotMappedWhenFree(s: State, q: nat, v: nat, g: nat)
    requires Inv(s) && Live(s, q) && UserPage(v) && g < L.npages && s.owner[g] == PO_FREE
    ensures Pte(s, q, v) != ZERO ==> Pte(s, q, v).frame != g
  {
    assert ProcessOk(s, q) && EntryOk(s, q, v, Pte(s, q, v));
  }

  lemma GrantUsers(s: State, q: nat, v: nat, g: nat, content: Page, h: nat)
    requires Inv(s) && Live(s, q) && UserPage(v) && g < L.npages && s.owner[g] == PO_FREE && h < L.npages
    ensures Users(Granted(s, q, v, g, content), h) <= if h == g then {q} else Users(s, h)
  {
    var s' := Granted(s, q, v, g, content);
    FreeHasNoUsers(s, g);
    forall r | r in Users(s', h)
      ensures r in (if h == g then {q} else Users(s, h))
    {
      if r != q {
        GrantKeepsOthers(s, q, v, g, content, r);
        assert ProcessOk(s, r);
        TranslationKept(s, s', r);
        assert r in Users(s, h);
      } else if h != g && s'.owner[h] != q {
        var w :| L.start <= w < L.top && MapsAt(s', q, w, h);
        GrantEntries(s, q, v, g, content);
        assert MapsAt(s, q, w, h);
      }
    }
  }

  lemma GrantKeepsInv(s: State, q: nat, v: nat, g: nat, content: Page)
    requires Inv(s) && Live(s, q) && UserPage(v) && g < L.npages && s.owner[g] == PO_FREE
    ensures Inv(Granted(s, q, v, g, content))
  {
    var s' := Granted(s, q, v, g, content);
    assert KernelOk(s') by {
      assert ProcessOk(s, q);
      KernelKept(s, s');
    }
    assert PagesOk(s') by {
      forall h | 0 <= h < L.npages ensures PageOk(s', h) {
        assert PageOk(s, h);
      }
    }
    forall r | 1 <= r < L.nproc && Live(s', r)
      ensures ProcessOk(s', r)
    {
      if r == q {
        GrantKeepsReceiver(s, q, v, g, content);
      } else {
        GrantKeepsOthers(s, q, v, g, content, r);
      }
    }
    forall h | 0 <= h < L.npages
      ensures CountOk(s', h)
    {
      assert CountOk(s, h);
      GrantUsers(s, q, v, g, content, h);
      SubsetSize(Users(s', h), if h == g then {q} else Users(s, h));
    }
  }

  // Sharing a read-only page

  /** Process c receives read-only access to page v, which is mapped at its own address. */
  function Shared(s: State, c: nat, v: nat): (s': State)
    requires WellFormed(s) && c < L.nproc && v < ENTRIES && v < L.npages
    ensures WellFormed(s')
  {
    s.(mem := Write(s.mem, Table(s, c), v, MakePte(v, PERM_USER)),
       refcount := s.refcount[v := s.refcount[v] + 1])
  }

  /** Process f can lend its page v to process c without overflowing the reference count. */
  predicate CanShare(s: State, f: nat, c: nat, v: nat)
    requires WellFormed(s)
  {
    && Live(s, f) && Live(s, c) && f != c && UserPage(v)
    && SharedEntry(s, f, v, Pte(s, f, v)) && s.refcount[v] < 127
  }

  /** A page that f maps read-only is not one that f can write. */
  lemma SharedIsNotOwned(s: State, f: nat, v: nat, w: nat)
    requires Inv(s) && Live(s, f) && UserPage(v) && UserPage(w) && SharedEntry(s, f, v, Pte(s, f, v))
    ensures !OwnsAt(s, f, w, v)
  {
    assert ProcessOk(s, f);
    assert w < v ==> MappedOnce(s, f, w, v);
    assert v < w ==> MappedOnce(s, f, v, w);
  }

  /** No process relies on a page that f shares; only f can be its sole user. */
  lemma SharedIsNotReliedOn(s: State, f: nat, c: nat, v: nat, r: nat)
    requires Inv(s) && CanShare(s, f, c, v) && Live(s, r)
    ensures !Relies(s, r, v)
    ensures Private(s, r, v) ==> r == f
  {
    assert ProcessOk(s, f) && ProcessOk(s, r);
    SharedEntryIsMapped(s, f, v);
    assert f in Users(s, v);
    if Private(s, r, v) {
      PrivateHasOneUser(s, r, v);
      forall w | L.start <= w < L.top
        ensures !OwnsAt(s, r, w, v)
      {
        SharedIsNotOwned(s, f, v, w);
      }
    }
  }

  lemma ShareKeepsOthers(s: State, f: nat, c: nat, v: nat, r: nat)
    requires Inv(s) && CanShare(s, f, c, v)
    requires Live(s, r) && r != c
    ensures SameTranslation(s, Shared(s, c, v), r)
    ensures ProcessOk(Shared(s, c, v), r)
  {
    var s' := Shared(s, c, v);
    assert ProcessOk(s, c) && ProcessOk(s, r);
    forall h | 0 <= h < L.npages
      ensures RightsKept(s, s', r, h)
    {
      SharedIsNotReliedOn(s, f, c, v, r);
    }
    ProcessKept(s, s', r);
  }

  lemma ShareEntries(s: State, f: nat, c: nat, v: nat)
    requires Inv(s) && CanShare(s, f, c, v)
    ensures var s' := Shared(s, c, v);
      && DirectoryOk(s', c) && Table(s', c) == Table(s, c)
      && (forall w :: 0 <= w < ENTRIES ==> Pte(s', c, w) == if w == v then MakePte(v, PERM_USER) else Pte(s, c, w))
  {
    var s' := Shared(s, c, v);
    assert ProcessOk(s, c);
    SharedIsNotReliedOn(s, f, c, v, c);
    var d := s.procs[c].pagedir;
    assert s'.mem[d] == s.mem[d];
    assert forall k :: 0 <= k < ENTRIES ==> Read(s'.mem, d, k) == Read(s.mem, d, k);
    assert DirectoryOk(s', c);
    forall w | 0 <= w < ENTRIES
      ensures Pte(s', c, w) == if w == v then MakePte(v, PERM_USER) else Pte(s, c, w)
    {
      PteIsTableEntry(s, c, w);
      PteIsTableEntry(s', c, w);
    }
  }

  lemma ShareKeepsReceiver(s: State, f: nat, c: nat, v: nat)
    requires Inv(s) && CanShare(s, f, c, v)
    ensures ProcessOk(Shared(s, c, v), c)
  {
    var s' := Shared(s, c, v);
    assert ProcessOk(s, c);
    ShareEntries(s, f, c, v);
    forall w | 0 <= w < ENTRIES
      ensures EntryOk(s', c, w, Pte(s', c, w))
    {
      SharedEntryOk(s, f, c, v, w);
    }
    forall w, w' | L.start <= w < w' < L.top
      ensures MappedOnce(s', c, w, w')
    {
      assert MappedOnce(s, c, w, w');
      if w != v {
        NotMappedElsewhere(s, f, c, v, w);
      } else {
        NotMappedElsewhere(s, f, c, v, w');
      }
    }
  }

  lemma SharedEntryOk(s: State, f: nat, c: nat, v: nat, w: nat)
    requires Inv(s) && CanShare(s, f, c, v) && w < ENTRIES
    ensures EntryOk(Shared(s, c, v), c, w, if w == v then MakePte(v, PERM_USER) else Pte(s, c, w))
  {
    var s' := Shared(s, c, v);
    assert ProcessOk(s, c) && EntryOk(s, c, w, Pte(s, c, w));
    assert Table(s', c) == Table(s, c) by { ShareEntries(s, f, c, v); }
    assert !Relies(s, c, v) by { SharedIsNotReliedOn(s, f, c, v, c); }
    if w != v && UserPage(w) && OwnEntry(s, c, Pte(s, c, w)) {
      assert OwnsAt(s, c, w, Pte(s, c, w).frame);
    }
  }

  /** The receiver of a shared page does not map it anywhere else. */
  lemma NotMappedElsewhere(s: State, f: nat, c: nat, v: nat, w: nat)
    requires Inv(s) && CanShare(s, f, c, v) && UserPage(w) && w != v
    ensures Pte(s, c, w) != ZERO ==> Pte(s, c, w).frame != v
  {
    assert ProcessOk(s, c) && EntryOk(s, c, w, Pte(s, c, w));
    assert !OwnsAt(s, c, w, v) by { SharedIsNotReliedOn(s, f, c, v, c); }
  }

  lemma ShareUsers(s: State, f: nat, c: nat, v: nat, h: nat)
    requires Inv(s) && CanShare(s, f, c, v) && h < L.npages
    ensures Users(Shared(s, c, v), h) <= if h == v then Users(s, h) + {c} else Users(s, h)
  {
    var s' := Shared(s, c, v);
    forall r | r in Users(s', h)
      ensures r in (if h == v then Users(s, h) + {c} else Users(s, h))
    {
      if r != c {
        ShareOtherUser(s, f, c, v, h, r);
      } else if h != v {
        ShareReceiverUses(s, f, c, v, h);
      }
    }
  }

  lemma ShareOtherUser(s: State, f: nat, c: nat, v: nat, h: nat, r: nat)
    requires Inv(s) && CanShare(s, f, c, v) && h < L.npages && r != c && r in Users(Shared(s, c, v), h)
    ensures r in Users(s, h)
  {
    ShareKeepsOthers(s, f, c, v, r);
    assert ProcessOk(s, r);
    TranslationKept(s, Shared(s, c, v), r);
  }

  lemma ShareReceiverUses(s: State, f: nat, c: nat, v: nat, h: nat)
    requires Inv(s) && CanShare(s, f, c, v) && h < L.npages && h != v && c in Users(Shared(s, c, v), h)
    ensures c in Users(s, h)
  {
    var s' := Shared(s, c, v);
    if s'.owner[h] != c {
      var w :| L.start <= w < L.top && MapsAt(s', c, w, h);
      ShareEntries(s, f, c, v);
      assert MapsAt(s, c, w, h);
    }
  }

  lemma ShareKeepsInv(s: State, f: nat, c: nat, v: nat)
    requires Inv(s) && CanShare(s, f, c, v)
    ensures Inv(Shared(s, c, v))
  {
    var s' := Shared(s, c, v);
    assert KernelOk(s') by {
      assert ProcessOk(s, c);
      KernelKept(s, s');
    }
    assert PagesOk(s') by {
      forall h | 0 <= h < L.npages ensures PageOk(s', h) {
        assert PageOk(s, h);
      }
    }
    forall r | 1 <= r < L.nproc && Live(s', r)
      ensures ProcessOk(s', r)
    {
      if r == c {
        ShareKeepsReceiver(s, f, c, v);
      } else {
        ShareKeepsOthers(s, f, c, v, r);
      }
    }
    forall h | 0 <= h < L.npages
      ensures CountOk(s', h)
    {
      assert CountOk(s, h);
      ShareUsers(s, f, c, v, h);
      SubsetSize(Users(s', h), if h == v then Users(s, h) + {c} else Users(s, h));
    }
  }

  // A new process

  /**
   * Slot c becomes a runnable process with page directory d and page table t, whose entries below the user area
   * are those of the directory src.
   */
  function Created(s: State, c: nat, d: nat, t: nat, registers: Registers, src: nat): (s': State)
    requires WellFormed(s) && c < L.nproc && d < L.npages && t < L.npages
    ensures WellFormed(s')
  {
    var mem := s.mem[d := DirectoryFor(t)];
    var taken := Take(Take(s, d, c), t, c);
    SetProc(taken.(mem := mem[t := TableFrom(mem, src)]), c, Proc(c, registers, P_RUNNABLE, d))
  }

  /** Pages d and t are free, slot c is free, and src maps the pages below the user area as it should. */
  predicate CanCreate(s: State, c: nat, d: nat, t: nat, src: nat)
    requires WellFormed(s)
  {
    && 1 <= c < L.nproc && s.procs[c].state == P_FREE
    && d < L.npages && t < L.npages && d != t
    && s.owner[d] == PO_FREE && s.owner[t] == PO_FREE
    && src != d && src != t
    && Read(s.mem, src, 0).frame != d && Read(s.mem, src, 0).frame != t
    && (forall v :: 0 <= v < L.start ==> LowEntryOk(s, src, v))
  }

  predicate LowEntryOk(s: State, src: nat, v: nat)
    requires WellFormed(s) && v < ENTRIES
  {
    Normal(Read(s.mem, Read(s.mem, src, 0).frame, v)) == KernelEntry(v)
  }

  lemma CreateKeepsOthers(s: State, c: nat, d: nat, t: nat, registers: Registers, src: nat, r: nat)
    requires Inv(s) && CanCreate(s, c, d, t, src) && Live(s, r)
    ensures SameTranslation(s, Created(s, c, d, t, registers, src), r)
    ensures ProcessOk(Created(s, c, d, t, registers, src), r)
  {
    var s' := Created(s, c, d, t, registers, src);
    assert ProcessOk(s, r);
    forall h | 0 <= h < L.npages
      ensures RightsKept(s, s', r, h)
    {
    }
    ProcessKept(s, s', r);
  }

  /** The new process has the source's low mappings and nothing else. */
  lemma CreatedEntries(s: State, c: nat, d: nat, t: nat, registers: Registers, src: nat)
    requires Inv(s) && CanCreate(s, c, d, t, src)
    ensures var s' := Created(s, c, d, t, registers, src);
      && DirectoryOk(s', c)
      && (forall v :: 0 <= v < ENTRIES ==>
           Pte(s', c, v) == if v < L.start then Normal(Read(s.mem, Read(s.mem, src, 0).frame, v)) else ZERO)
  {
    var s' := Created(s, c, d, t, registers, src);
    assert s'.mem[d] == DirectoryFor(t);
    assert DirectoryOk(s', c);
    forall v | 0 <= v < ENTRIES
      ensures Pte(s', c, v) == if v < L.start then Normal(Read(s.mem, Read(s.mem, src, 0).frame, v)) else ZERO
    {
      PteIsTableEntry(s', c, v);
    }
  }

  lemma CreateUsers(s: State, c: nat, d: nat, t: nat, registers: Registers, src: nat, h: nat)
    requires Inv(s) && CanCreate(s, c, d, t, src) && h < L.npages
    ensures Users(Created(s, c, d, t, registers, src), h) <= if h == d || h == t then {c} else Users(s, h)
  {
    var s' := Created(s, c, d, t, registers, src);
    FreeHasNoUsers(s, d);
    FreeHasNoUsers(s, t);
    assert PageOk(s, h);
    forall r | r in Users(s', h)
      ensures r in (if h == d || h == t then {c} else Users(s, h))
    {
      if r != c {
        CreateKeepsOthers(s, c, d, t, registers, src, r);
        assert ProcessOk(s, r);
        TranslationKept(s, s', r);
        assert r in Users(s, h);
      } else {
        CreatedEntries(s, c, d, t, registers, src);
        assert forall v :: L.start <= v < L.top ==> !MapsAt(s', c, v, h);
      }
    }
  }

  lemma CreatedIsOk(s: State, c: nat, d: nat, t: nat, registers: Registers, src: nat, s': State)
    requires Inv(s) && CanCreate(s, c, d, t, src) && s' == Created(s, c, d, t, registers, src)
    ensures ProcessOk(s', c)
  {
    CreatedEntries(s, c, d, t, registers, src);
    forall v | 0 <= v < ENTRIES
      ensures EntryOk(s', c, v, Pte(s', c, v))
    {
      assert v < L.start ==> LowEntryOk(s, src, v);
    }
  }

  lemma CreateCount(s: State, c: nat, d: nat, t: nat, registers: Registers, src: nat, s': State, h: nat)
    requires Inv(s) && CanCreate(s, c, d, t, src) && s' == Created(s, c, d, t, registers, src) && h < L.npages
    ensures CountOk(s', h)
  {
    assert CountOk(s, h);
    CreateUsers(s, c, d, t, registers, src, h);
    SubsetSize(Users(s', h), if h == d || h == t then {c} else Users(s, h));
  }

  lemma CreateKeepsInv(s: State, c: nat, d: nat, t: nat, registers: Registers, src: nat)
    requires Inv(s) && CanCreate(s, c, d, t, src)
    ensures Inv(Created(s, c, d, t, registers, src))
  {
    var s' := Created(s, c, d, t, registers, src);
    assert KernelOk(s') by { KernelKept(s, s'); }
    assert PagesOk(s') by {
      forall h | 0 <= h < L.npages ensures PageOk(s', h) {
        assert PageOk(s, h);
      }
    }
    forall r | 1 <= r < L.nproc && Live(s', r)
      ensures ProcessOk(s', r)
    {
      if r == c {
        CreatedIsOk(s, c, d, t, registers, src, s');
      } else {
        CreateKeepsOthers(s, c, d, t, registers, src, r);
      }
    }
    forall h | 0 <= h < L.npages
      ensures CountOk(s', h)
    {
      CreateCount(s, c, d, t, registers, src, s', h);
    }
  }

  // Releasing a process

  /** A runnable process that the hand-over scan finds for a shared page really uses that page. */
  lemma HeirUsesPage(s: State, p: nat, q: nat, g: nat)
    requires Inv(s) && p < L.nproc && 1 <= q < L.nproc && g < L.npages
    requires s.owner[g] > 0 && s.refcount[g] > 1
    requires CanInherit(SetState(s, p, P_BLOCKED), q, g)
    ensures q != p && q in Users(s, g)
  {
    var b := SetState(s, p, P_BLOCKED);
    assert PageOk(s, g) && ProcessOk(s, q);
    var j :| 0 <= j < L.npages && Pte(b, q, j).frame == g;
    assert Pte(b, q, j) == Pte(s, q, j);
    assert EntryOk(s, q, j, Pte(s, q, j));
    assert MapsAt(s, q, j, g);
  }

  /** How page g fares when process p is released. */
  ghost predicate GivenUp(s: State, p: nat, s': State, g: nat)
    requires WellFormed(s) && WellFormed(s') && g < L.npages
  {
    if s.owner[g] != p then s'.owner[g] == s.owner[g] && s'.refcount[g] == s.refcount[g]
    else
      && s'.refcount[g] == s.refcount[g] - 1
      && if s.refcount[g] == 1 then s'.owner[g] == PO_FREE
         else s'.owner[g] != p && s'.owner[g] >= 1 && s'.owner[g] in Users(s, g)
  }

  lemma ReleasedPage(s: State, p: nat, g: nat)
    requires Inv(s) && Live(s, p) && Release(s, p).Some? && g < L.npages
    ensures GivenUp(s, p, Release(s, p).value, g)
  {
    var b := SetState(s, p, P_BLOCKED);
    assert PageOk(s, g);
    assert !Stuck(b, p, g);
    if s.owner[g] == p && s.refcount[g] > 1 {
      HeirUsesPage(s, p, Heir(b, g, 1).value, g);
    }
  }

  /** Process p is gone, its pages are given up, and nothing else has changed. */
  ghost predicate Leaves(s: State, p: nat, s': State)
    requires WellFormed(s) && p < L.nproc
  {
    && WellFormed(s') && s'.mem == s.mem && s'.procs == s.procs[p := s.procs[p].(state := P_FREE)]
    && (forall g :: 0 <= g < L.npages ==> GivenUp(s, p, s', g))
  }

  lemma ReleaseLeaves(s: State, p: nat)
    requires Inv(s) && Live(s, p) && Release(s, p).Some?
    ensures Leaves(s, p, Release(s, p).value)
  {
    forall g | 0 <= g < L.npages
      ensures GivenUp(s, p, Release(s, p).value, g)
    {
      ReleasedPage(s, p, g);
    }
  }

  /** A page of p that another process has mapped counts two users at least. */
  lemma MappedByOther(s: State, p: nat, r: nat, h: nat)
    requires Inv(s) && Live(s, p) && Live(s, r) && r != p && h < L.npages
    requires s.owner[h] == p && MapsForUser(s, r, h)
    ensures s.refcount[h] > 1
  {
    assert {p, r} <= Users(s, h) && CountOk(s, h);
    SubsetSize({p, r}, Users(s, h));
  }

  /** A page that another process relies on stays its own, and one that it has mapped stays owned. */
  lemma LeavesRights(s: State, p: nat, r: nat, h: nat, s': State)
    requires Inv(s) && Live(s, p) && Leaves(s, p, s') && Live(s, r) && r != p && h < L.npages
    ensures RightsKept(s, s', r, h)
  {
    assert GivenUp(s, p, s', h);
    if s.owner[h] == p && MapsForUser(s, r, h) {
      MappedByOther(s, p, r, h);
    }
  }

  lemma LeavesOthers(s: State, p: nat, r: nat, s': State)
    requires Inv(s) && Live(s, p) && Leaves(s, p, s') && Live(s, r) && r != p
    ensures SameTranslation(s, s', r) && ProcessOk(s', r)
  {
    assert ProcessOk(s, r);
    forall h | 0 <= h < L.npages
      ensures RightsKept(s, s', r, h)
    {
      LeavesRights(s, p, r, h, s');
    }
    ProcessKept(s, s', r);
  }

  lemma LeavesUsers(s: State, p: nat, h: nat, s': State)
    requires Inv(s) && Live(s, p) && Leaves(s, p, s') && h < L.npages
    ensures Users(s', h) <= Users(s, h) - {p}
  {
    assert GivenUp(s, p, s', h);
    forall r | r in Users(s', h)
      ensures r in Users(s, h) - {p}
    {
      LeavesOthers(s, p, r, s');
      assert ProcessOk(s, r);
      TranslationKept(s, s', r);
    }
  }

  lemma LeavesPages(s: State, p: nat, s': State)
    requires Inv(s) && Live(s, p) && Leaves(s, p, s')
    ensures PagesOk(s') && KernelOk(s')
  {
    forall h | 0 <= h < L.npages
      ensures PageOk(s', h) && (s.owner[h] < 0 ==> s'.owner[h] == s.owner[h] && s'.refcount[h] == s.refcount[h])
    {
      assert PageOk(s, h) && GivenUp(s, p, s', h);
    }
    KernelKept(s, s');
  }

  lemma LeavesCount(s: State, p: nat, h: nat, s': State)
    requires Inv(s) && Live(s, p) && Leaves(s, p, s') && h < L.npages
    ensures CountOk(s', h)
  {
    assert CountOk(s, h) && GivenUp(s, p, s', h);
    LeavesUsers(s, p, h, s');
    SubsetSize(Users(s', h), Users(s, h) - {p});
  }

  lemma LeavesKeepsInv(s: State, p: nat, s': State)
    requires Inv(s) && Live(s, p) && Leaves(s, p, s')
    ensures Inv(s')
  {
    LeavesPages(s, p, s');
    forall r | 1 <= r < L.nproc && Live(s', r)
      ensures ProcessOk(s', r)
    {
      assert Live(s, r) && r != p;
      LeavesOthers(s, p, r, s');
    }
    forall h | 0 <= h < L.npages
      ensures CountOk(s', h)
    {
      LeavesCount(s, p, h, s');
    }
  }

  lemma ReleaseKeepsInv(s: State, p: nat)
    requires Inv(s) && Live(s, p) && Release(s, p).Some?
    ensures Inv(Release(s, p).value)
  {
    ReleaseLeaves(s, p);
    LeavesKeepsInv(s, p, Release(s, p).value);
  }

  // A store by the running program

  /** Nothing is mapped beyond the first four megabytes. */
  lemma LookupOfLive(s: State, q: nat, v: nat)
    requires Inv(s) && Live(s, q) && v < VPAGES
    ensures Lookup(s.mem, s.procs[q].pagedir, v) == if v < ENTRIES then Pte(s, q, v) else ZERO
  {
    assert ProcessOk(s, q);
    if v < ENTRIES {
      LookupLow(s.mem, s.procs[q].pagedir, v);
    } else {
      assert DirSlot(v) >= 1;
    }
  }

  /** What a live process can write is never a page table, a directory or a page of the kernel. */
  lemma WritablePage(s: State, q: nat, v: nat)
    requires Inv(s) && Live(s, q) && v < ENTRIES && Writable(Pte(s, q, v))
    ensures var g := Pte(s, q, v).frame;
      if UserPage(v) then Private(s, q, g) && OwnsAt(s, q, v, g) && g != s.procs[q].pagedir && g != Table(s, q)
      else g == L.console && v == L.console
  {
    assert ProcessOk(s, q) && EntryOk(s, q, v, Pte(s, q, v));
  }

  lemma StoreKeepsTranslation(s: State, v: nat, i: nat, w: Word, r: nat)
    requires Inv(s) && Live(s, s.current) && v < VPAGES && i < ENTRIES && Live(s, r)
    ensures SameTranslation(s, UserStore(s, v, i, w), r)
  {
    assert ProcessOk(s, r);
    LookupOfLive(s, s.current, v);
    if v < ENTRIES && Writable(Pte(s, s.current, v)) {
      WritablePage(s, s.current, v);
    }
  }

  lemma StoreKeepsInv(s: State, v: nat, i: nat, w: Word)
    requires Inv(s) && Live(s, s.current) && v < VPAGES && i < ENTRIES
    ensures Inv(UserStore(s, v, i, w))
  {
    var s' := UserStore(s, v, i, w);
    LookupOfLive(s, s.current, v);
    if v < ENTRIES && Writable(Pte(s, s.current, v)) {
      WritablePage(s, s.current, v);
    }
    SameTablesKeepInv(s, s') by {
      forall r | Live(s, r) ensures SameTranslation(s, s', r) {
        StoreKeepsTranslation(s, v, i, w, r);
      }
    }
  }

  /** Registers, the current process and page contents do not matter to the invariant; page tables do. */
  lemma SameTablesKeepInv(s: State, s': State)
    requires Inv(s) && WellFormed(s')
    requires s'.owner == s.owner && s'.refcount == s.refcount
    requires s'.mem[L.kernelDir] == s.mem[L.kernelDir]
    requires forall r :: 0 <= r < L.nproc ==> (s'.procs[r].state == P_FREE <==> s.procs[r].state == P_FREE)
    requires forall r :: 0 <= r < L.nproc && Live(s, r) ==> s'.procs[r].state != P_BLOCKED
    requires forall r :: Live(s, r) ==> SameTranslation(s, s', r)
    ensures Inv(s')
  {
    assert PagesOk(s') by {
      forall h | 0 <= h < L.npages ensures PageOk(s', h) {
        assert PageOk(s, h);
      }
    }
    forall r | Live(s', r)
      ensures ProcessOk(s', r)
    {
      assert ProcessOk(s, r);
      ProcessKept(s, s', r);
    }
    forall h | 0 <= h < L.npages
      ensures CountOk(s', h)
    {
      assert CountOk(s, h);
      forall r | 0 <= r < L.nproc
        ensures Uses(s', r, h) == Uses(s, r, h)
      {
        if Live(s, r) {
          assert ProcessOk(s, r);
          TranslationKept(s, s', r);
        }
      }
      assert Users(s', h) == Users(s, h);
    }
    assert KernelOk(s') by {
      assert forall k :: 0 <= k < ENTRIES ==> Read(s'.mem, L.kernelDir, k) == Read(s.mem, L.kernelDir, k);
    }
  }
}
