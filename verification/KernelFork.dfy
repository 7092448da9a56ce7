/** Fork: what one turn of its loop does, what the whole loop has done so far, and how it ends. */
module KernelFork {
  import opened Wrappers
  import opened Collections
  import opened Machine
  import opened KernelState
  import opened KernelInvariant
  import opened KernelFrames
  import opened KernelSteps

  // Free pages

  ghost function FreePages(s: State): (r: set<nat>)
    requires WellFormed(s)
  {
    set g: nat | g < L.npages && s.owner[g] == PO_FREE
  }

  /** Pages without owner have no references. */
  predicate FreeUncounted(s: State)
    requires WellFormed(s)
  {
    forall g :: 0 <= g < L.npages && s.owner[g] == PO_FREE ==> s.refcount[g] == 0
  }

  lemma InvFreeUncounted(s: State)
    requires Inv(s)
    ensures FreeUncounted(s)
  {
    forall g | 0 <= g < L.npages && s.owner[g] == PO_FREE
      ensures s.refcount[g] == 0
    {
      assert PageOk(s, g);
    }
  }

  /** Allocation fails only when no page is free. */
  lemma AllocFindsFree(s: State)
    requires WellFormed(s) && FreeUncounted(s)
    ensures Alloc(s).Some? <==> FreePages(s) != {}
    ensures Alloc(s).Some? ==> Alloc(s).value in FreePages(s)
  {
    var g := FirstFree(s.owner, 0);
    if g.Some? {
      assert g.value in FreePages(s);
    } else {
      assert forall k :: 0 <= k < L.npages ==> s.owner[k] != PO_FREE;
    }
  }

  lemma TakeFromFree(s: State, g: nat, o: nat)
    requires WellFormed(s) && FreeUncounted(s) && g in FreePages(s) && o != 0
    ensures FreeUncounted(Take(s, g, o))
    ensures FreePages(Take(s, g, o)) == FreePages(s) - {g}
  {
  }

  /** The three ways copy_pagedir ends: without a page, with one page too few, or with two pages d and t. */
  predicate CopiedPagedir(s: State, dir: nat, o: nat, d: nat, t: nat)
    requires WellFormed(s) && d < L.npages && t < L.npages
  {
    var mem := s.mem[d := DirectoryFor(t)];
    CopyPagedir(s, dir, o) == (Take(Take(s, d, o), t, o).(mem := mem[t := TableFrom(mem, dir)]), Some(d))
  }

  lemma CopyPagedirOutcome(s: State, dir: nat, o: nat) returns (d: nat, t: nat)
    requires WellFormed(s) && FreeUncounted(s) && o != 0
    ensures FreePages(s) == {} ==> CopyPagedir(s, dir, o) == (s, None)
    ensures |FreePages(s)| == 1 ==> d in FreePages(s) && CopyPagedir(s, dir, o) == (Take(s, d, o), None)
    ensures |FreePages(s)| >= 2 ==>
              d in FreePages(s) && t in FreePages(s) && d != t && CopiedPagedir(s, dir, o, d, t)
  {
    d, t := 0, 0;
    AllocFindsFree(s);
    if Alloc(s).Some? {
      d := Alloc(s).value;
      var s1 := Take(s, d, o);
      TakeFromFree(s, d, o);
      AllocFindsFree(s1);
      if Alloc(s1).Some? {
        t := Alloc(s1).value;
        SubsetSize({d, t}, FreePages(s));
      } else {
        assert FreePages(s) == {d};
      }
    }
  }

  // Pages of the father

  ghost function WritableBelow(s: State, f: nat, v: nat): (r: set<nat>)
    requires WellFormed(s) && f < L.nproc && v <= L.top
  {
    set w: nat | L.start <= w < v && Writable(Pte(s, f, w))
  }

  predicate SharesAt(s: State, f: nat, v: nat)
    requires WellFormed(s) && f < L.nproc && v < ENTRIES
  {
    UserPage(v) && Readable(Pte(s, f, v)) && !Writable(Pte(s, f, v))
  }

  /** The reference count of a page that f shares is already at the int8_t maximum. */
  predicate OverflowsAt(s: State, f: nat, v: nat)
    requires WellFormed(s) && f < L.nproc && v < ENTRIES
  {
    SharesAt(s, f, v) && v < L.npages && s.refcount[v] == 127
  }

  /** In the user area an entry is exactly one of: writable and its process's own, read-only and shared, absent. */
  lemma EntryKinds(s: State, q: nat, v: nat)
    requires Inv(s) && Live(s, q) && UserPage(v)
    ensures Writable(Pte(s, q, v)) <==> OwnEntry(s, q, Pte(s, q, v))
    ensures SharesAt(s, q, v) <==> SharedEntry(s, q, v, Pte(s, q, v))
    ensures Readable(Pte(s, q, v)) || Pte(s, q, v) == ZERO
  {
    assert ProcessOk(s, q) && EntryOk(s, q, v, Pte(s, q, v));
  }

  // One turn of the loop

  lemma ForkPageMeaning(s: State, f: nat, c: nat, v: nat)
    requires Inv(s) && Live(s, f) && Live(s, c) && f != c && UserPage(v) && !OverflowsAt(s, f, v)
    ensures var e := Pte(s, f, v);
      if Writable(e) then
        if Alloc(s).None? then ForkPage(s, f, c, v) == OutOfMemory(s)
        else ForkPage(s, f, c, v) == Copied(Granted(s, c, v, Alloc(s).value, ReadPage(s.mem, e.frame)))
      else if e != ZERO then CanShare(s, f, c, v) && ForkPage(s, f, c, v) == Copied(Shared(s, c, v))
      else ForkPage(s, f, c, v) == Copied(s)
  {
    var e := Pte(s, f, v);
    EntryKinds(s, f, v);
    assert ProcessOk(s, c);
    if Writable(e) {
      if Alloc(s).Some? {
        var g := Alloc(s).value;
        var s1 := Take(s, g, c);
        SetEntryWrites(s, s1.mem[g := ReadPage(s1.mem, e.frame)], c, v, MakePte(g, PERM_USER_WRITE));
      }
    } else if e != ZERO {
      SetEntryWrites(s, s.mem, c, v, MakePte(v, PERM_USER));
      assert PageOk(s, v);
    }
  }

  /** Page w of the child is the father's page w: same permissions, same contents. */
  predicate CopiedAt(s: State, f: nat, c: nat, w: nat)
    requires WellFormed(s) && f < L.nproc && c < L.nproc && w < ENTRIES
  {
    var e, e' := Pte(s, f, w), Pte(s, c, w);
    && e.(frame := 0) == e'.(frame := 0)
    && (e == ZERO <==> e' == ZERO)
    && ReadPage(s.mem, e'.frame) == ReadPage(s.mem, e.frame)
  }

  /** How page g has fared since s0: untouched, taken for the child, or shared by the loop up to page v. */
  predicate PageSince(s0: State, s: State, f: nat, c: nat, v: nat, g: nat)
    requires WellFormed(s0) && WellFormed(s) && f < L.nproc && c < L.nproc && g < L.npages && v <= L.top
  {
    if s0.owner[g] == PO_FREE then
      s.owner[g] == PO_FREE || (s.owner[g] == c && s.refcount[g] == 1)
    else
      && s.owner[g] == s0.owner[g]
      && s.refcount[g] == s0.refcount[g] + (if g < v && SharesAt(s0, f, g) then 1 else 0)
      && (g == Table(s0, c) || s.mem[g] == s0.mem[g])
  }

  /** What holds when fork, begun in s0 with a fresh child c, has dealt with the pages of f below v. */
  ghost predicate ForkedBelow(s0: State, s: State, f: nat, c: nat, v: nat)
    requires WellFormed(s0)
  {
    && Inv(s) && Live(s, f) && Live(s, c) && f != c && L.start <= v <= L.top
    && s.procs == s0.procs && s.current == s0.current
    && SameTranslation(s0, s, f) && DirectoryOk(s0, f) && Table(s, c) == Table(s0, c)
    && (forall g :: 0 <= g < L.npages ==> PageSince(s0, s, f, c, v, g))
    && FreePages(s) <= FreePages(s0)
    && |FreePages(s)| == |FreePages(s0)| - |WritableBelow(s0, f, v)|
    && (forall w :: L.start <= w < v ==> CopiedAt(s, f, c, w))
    && (forall w :: v <= w < L.top ==> Pte(s, c, w) == ZERO)
  }

  lemma WritableBelowStep(s: State, f: nat, v: nat)
    requires WellFormed(s) && f < L.nproc && UserPage(v)
    ensures WritableBelow(s, f, v + 1) == WritableBelow(s, f, v) + (if Writable(Pte(s, f, v)) then {v} else {})
    ensures |WritableBelow(s, f, v + 1)| == |WritableBelow(s, f, v)| + (if Writable(Pte(s, f, v)) then 1 else 0)
  {
    assert WritableBelow(s, f, v + 1) == WritableBelow(s, f, v) + (if Writable(Pte(s, f, v)) then {v} else {});
  }

  /** An entry of the user area points to an owned page that is nobody's page table. */
  lemma UserEntryTarget(s: State, q: nat, w: nat, c: nat)
    requires Inv(s) && Live(s, q) && Live(s, c) && UserPage(w) && Pte(s, q, w) != ZERO
    ensures var g := Pte(s, q, w).frame;
      g < L.npages && s.owner[g] > 0 && g != Table(s, c)
  {
    var g := Pte(s, q, w).frame;
    EntryKinds(s, q, w);
    assert MapsAt(s, q, w, g);
    MappedIsOwned(s, q, g);
    TablesArePrivate(s, c);
    assert q in Users(s, g);
  }

  /** A page stays copied as long as its entries and the pages behind them stay as they are. */
  lemma StaysCopied(s: State, s': State, f: nat, c: nat, w: nat)
    requires WellFormed(s) && WellFormed(s') && f < L.nproc && c < L.nproc && w < ENTRIES && CopiedAt(s, f, c, w)
    requires Pte(s', f, w) == Pte(s, f, w) && Pte(s', c, w) == Pte(s, c, w)
    requires Pte(s, f, w) != ZERO ==>
               && ReadPage(s'.mem, Pte(s, f, w).frame) == ReadPage(s.mem, Pte(s, f, w).frame)
               && ReadPage(s'.mem, Pte(s, c, w).frame) == ReadPage(s.mem, Pte(s, c, w).frame)
    ensures CopiedAt(s', f, c, w)
  {
  }

  /** A page copied earlier stays copied while the child receives another one. */
  lemma GrantKeepsCopies(s: State, f: nat, c: nat, v: nat, g: nat, content: Page, w: nat)
    requires Inv(s) && Live(s, f) && Live(s, c) && f != c && UserPage(v) && UserPage(w) && w != v
    requires g in FreePages(s) && CopiedAt(s, f, c, w)
    ensures CopiedAt(Granted(s, c, v, g, content), f, c, w)
  {
    var s' := Granted(s, c, v, g, content);
    assert ProcessOk(s, f);
    assert Pte(s', f, w) == Pte(s, f, w) by {
      GrantKeepsOthers(s, c, v, g, content, f);
      TranslationKept(s, s', f);
    }
    assert Pte(s', c, w) == Pte(s, c, w) by { GrantEntries(s, c, v, g, content); }
    if Pte(s, f, w) != ZERO {
      UserEntryTarget(s, f, w, c);
      UserEntryTarget(s, c, w, c);
    }
    StaysCopied(s, s', f, c, w);
  }

  /** The page copied in this turn is a copy. */
  lemma GrantMakesCopy(s: State, f: nat, c: nat, v: nat, g: nat)
    requires Inv(s) && Live(s, f) && Live(s, c) && f != c && UserPage(v)
    requires g in FreePages(s) && Writable(Pte(s, f, v))
    ensures CopiedAt(Granted(s, c, v, g, ReadPage(s.mem, Pte(s, f, v).frame)), f, c, v)
  {
    var e := Pte(s, f, v);
    var s' := Granted(s, c, v, g, ReadPage(s.mem, e.frame));
    assert Pte(s', f, v) == e by {
      assert ProcessOk(s, f);
      GrantKeepsOthers(s, c, v, g, ReadPage(s.mem, e.frame), f);
      TranslationKept(s, s', f);
    }
    assert Pte(s', c, v) == MakePte(g, PERM_USER_WRITE) by { GrantEntries(s, c, v, g, ReadPage(s.mem, e.frame)); }
    assert e == MakePte(e.frame, PERM_USER_WRITE) && e != ZERO by { EntryKinds(s, f, v); }
    assert e.frame < L.npages && e.frame != g && e.frame != Table(s, c) by { UserEntryTarget(s, f, v, c); }
    assert g != Table(s, c) by { TablesArePrivate(s, c); }
    assert s'.mem[g] == s.mem[e.frame] && s'.mem[e.frame] == s.mem[e.frame];
    BecomesCopied(s', f, c, v, g);
  }

  lemma BecomesCopied(s: State, f: nat, c: nat, v: nat, g: nat)
    requires WellFormed(s) && f < L.nproc && c < L.nproc && v < ENTRIES && g < L.npages
    requires Pte(s, c, v) == MakePte(g, PERM_USER_WRITE) && Pte(s, f, v) == MakePte(Pte(s, f, v).frame, PERM_USER_WRITE)
    requires Pte(s, f, v) != ZERO && Pte(s, f, v).frame < L.npages && s.mem[g] == s.mem[Pte(s, f, v).frame]
    ensures CopiedAt(s, f, c, v)
  {
  }

  /** Sharing changes no page that is visible to father or child. */
  lemma ShareKeepsCopies(s: State, f: nat, c: nat, v: nat, w: nat)
    requires Inv(s) && CanShare(s, f, c, v) && UserPage(w)
    requires w == v || CopiedAt(s, f, c, w)
    ensures CopiedAt(Shared(s, c, v), f, c, w)
  {
    var s' := Shared(s, c, v);
    assert ProcessOk(s, f);
    assert Pte(s', f, w) == Pte(s, f, w) by {
      ShareKeepsOthers(s, f, c, v, f);
      TranslationKept(s, s', f);
    }
    assert Pte(s', c, w) == if w == v then MakePte(v, PERM_USER) else Pte(s, c, w) by { ShareEntries(s, f, c, v); }
    if w != v {
      if Pte(s, f, w) != ZERO {
        UserEntryTarget(s, f, w, c);
        UserEntryTarget(s, c, w, c);
      }
      StaysCopied(s, s', f, c, w);
    }
  }

  // One more turn

  /** The bookkeeping of a turn that grants page g. */
  lemma GrantPages(s0: State, s: State, f: nat, c: nat, v: nat, g: nat, h: nat)
    requires WellFormed(s0) && ForkedBelow(s0, s, f, c, v) && v < L.top && h < L.npages
    requires g in FreePages(s) && Writable(Pte(s, f, v))
    ensures PageSince(s0, Granted(s, c, v, g, ReadPage(s.mem, Pte(s, f, v).frame)), f, c, v + 1, h)
  {
    assert PageSince(s0, s, f, c, v, h);
    assert Pte(s0, f, v) == Pte(s, f, v) by { TranslationKept(s0, s, f); }
  }

  lemma GrantKeepsFather(s0: State, s: State, f: nat, c: nat, v: nat, g: nat, content: Page)
    requires WellFormed(s0) && Inv(s) && Live(s, f) && Live(s, c) && f != c && UserPage(v) && g in FreePages(s)
    requires DirectoryOk(s0, f) && SameTranslation(s0, s, f)
    ensures SameTranslation(s0, Granted(s, c, v, g, content), f)
  {
    TranslationKept(s0, s, f);
    GrantKeepsOthers(s, c, v, g, content, f);
  }

  lemma GrantCopies(s: State, f: nat, c: nat, v: nat, g: nat, s': State)
    requires Inv(s) && Live(s, f) && Live(s, c) && f != c && UserPage(v)
    requires g in FreePages(s) && Writable(Pte(s, f, v))
    requires s' == Granted(s, c, v, g, ReadPage(s.mem, Pte(s, f, v).frame))
    requires forall w :: L.start <= w < v ==> CopiedAt(s, f, c, w)
    ensures forall w :: L.start <= w <= v ==> CopiedAt(s', f, c, w)
  {
    forall w | L.start <= w <= v
      ensures CopiedAt(s', f, c, w)
    {
      if w == v {
        GrantMakesCopy(s, f, c, v, g);
      } else {
        assert CopiedAt(s, f, c, w);
        GrantKeepsCopies(s, f, c, v, g, ReadPage(s.mem, Pte(s, f, v).frame), w);
      }
    }
  }

  lemma GrantCounts(s0: State, s: State, f: nat, c: nat, v: nat, v': nat, g: nat, s': State)
    requires WellFormed(s0) && ForkedBelow(s0, s, f, c, v) && v < L.top && v' == v + 1
    requires g in FreePages(s) && Writable(Pte(s, f, v))
    requires s' == Granted(s, c, v, g, ReadPage(s.mem, Pte(s, f, v).frame))
    ensures FreePages(s') <= FreePages(s0) && |FreePages(s')| == |FreePages(s0)| - |WritableBelow(s0, f, v')|
  {
    assert FreePages(s') == FreePages(s) - {g};
    assert Pte(s0, f, v) == Pte(s, f, v) by { TranslationKept(s0, s, f); }
    WritableBelowStep(s0, f, v);
  }

  lemma GrantStep(s0: State, s: State, f: nat, c: nat, v: nat, v': nat, g: nat, s': State)
    requires WellFormed(s0) && ForkedBelow(s0, s, f, c, v) && v < L.top && v' == v + 1
    requires g in FreePages(s) && Writable(Pte(s, f, v))
    requires s' == Granted(s, c, v, g, ReadPage(s.mem, Pte(s, f, v).frame))
    ensures ForkedBelow(s0, s', f, c, v')
  {
    var content := ReadPage(s.mem, Pte(s, f, v).frame);
    assert Inv(s') by { GrantKeepsInv(s, c, v, g, content); }
    assert SameTranslation(s0, s', f) by { GrantKeepsFather(s0, s, f, c, v, g, content); }
    assert Table(s', c) == Table(s0, c) && forall w :: v' <= w < L.top ==> Pte(s', c, w) == ZERO by {
      GrantEntries(s, c, v, g, content);
    }
    forall h | 0 <= h < L.npages
      ensures PageSince(s0, s', f, c, v', h)
    {
      GrantPages(s0, s, f, c, v, g, h);
    }
    GrantCounts(s0, s, f, c, v, v', g, s');
    GrantCopies(s, f, c, v, g, s');
  }

  /** The bookkeeping of a turn that shares page v. */
  lemma SharePages(s0: State, s: State, f: nat, c: nat, v: nat, h: nat)
    requires WellFormed(s0) && ForkedBelow(s0, s, f, c, v) && v < L.top && CanShare(s, f, c, v) && h < L.npages
    ensures PageSince(s0, Shared(s, c, v), f, c, v + 1, h)
  {
    assert PageSince(s0, s, f, c, v, h);
    NotShareableIfForChild(s0, s, f, c, v);
    assert SharesAt(s0, f, v) by {
      TranslationKept(s0, s, f);
      EntryKinds(s, f, v);
    }
  }

  lemma ShareStep(s0: State, s: State, f: nat, c: nat, v: nat, v': nat)
    requires WellFormed(s0) && ForkedBelow(s0, s, f, c, v) && v < L.top && v' == v + 1 && CanShare(s, f, c, v)
    ensures ForkedBelow(s0, Shared(s, c, v), f, c, v')
  {
    var s' := Shared(s, c, v);
    assert Inv(s') by { ShareKeepsInv(s, f, c, v); }
    assert SameTranslation(s0, s', f) by {
      TranslationKept(s0, s, f);
      ShareKeepsOthers(s, f, c, v, f);
    }
    assert Table(s', c) == Table(s0, c) by { ShareEntries(s, f, c, v); }
    forall h | 0 <= h < L.npages
      ensures PageSince(s0, s', f, c, v', h)
    {
      SharePages(s0, s, f, c, v, h);
    }
    assert |FreePages(s')| == |FreePages(s0)| - |WritableBelow(s0, f, v')| by {
      assert FreePages(s') == FreePages(s);
      EntryKinds(s, f, v);
      assert Pte(s0, f, v) == Pte(s, f, v) by { TranslationKept(s0, s, f); }
      WritableBelowStep(s0, f, v);
    }
    forall w | L.start <= w < v'
      ensures CopiedAt(s', f, c, w)
    {
      assert w < v ==> CopiedAt(s, f, c, w);
      ShareKeepsCopies(s, f, c, v, w);
    }
    assert forall w :: v' <= w < L.top ==> Pte(s', c, w) == ZERO by { ShareEntries(s, f, c, v); }
  }

  /** A page that the father shares was in use before the fork began. */
  lemma NotShareableIfForChild(s0: State, s: State, f: nat, c: nat, v: nat)
    requires WellFormed(s0) && ForkedBelow(s0, s, f, c, v) && v < L.top && CanShare(s, f, c, v)
    ensures s0.owner[v] != PO_FREE
  {
    assert PageSince(s0, s, f, c, v, v);
    SharedIsNotReliedOn(s, f, c, v, c);
  }

  lemma NothingStep(s0: State, s: State, f: nat, c: nat, v: nat, v': nat)
    requires WellFormed(s0) && ForkedBelow(s0, s, f, c, v) && v < L.top && v' == v + 1 && Pte(s, f, v) == ZERO
    ensures ForkedBelow(s0, s, f, c, v')
  {
    assert Pte(s0, f, v) == Pte(s, f, v) by { TranslationKept(s0, s, f); }
    forall h | 0 <= h < L.npages
      ensures PageSince(s0, s, f, c, v', h)
    {
      NothingPages(s0, s, f, c, v, v', h);
    }
    assert |WritableBelow(s0, f, v')| == |WritableBelow(s0, f, v)| by { WritableBelowStep(s0, f, v); }
    assert CopiedAt(s, f, c, v);
  }

  /** The bookkeeping of a turn that finds nothing. */
  lemma NothingPages(s0: State, s: State, f: nat, c: nat, v: nat, v': nat, h: nat)
    requires WellFormed(s0) && WellFormed(s) && f < L.nproc && c < L.nproc && h < L.npages
    requires v < L.top && v' == v + 1 && Pte(s0, f, v) == ZERO && PageSince(s0, s, f, c, v, h)
    ensures PageSince(s0, s, f, c, v', h)
  {
  }

  /** With n free pages, fork's loop comes to page v: there is memory for all writable pages below it. */
  ghost predicate Reaches(s: State, f: nat, n: int, v: nat)
    requires WellFormed(s) && f < L.nproc && v <= L.top
  {
    |WritableBelow(s, f, v)| <= n
  }

  /** With n free pages, fork's loop comes to no reference count that overflows. */
  ghost predicate NoOverflow(s: State, f: nat, n: int)
    requires WellFormed(s) && f < L.nproc
  {
    forall v :: L.start <= v < L.top && Reaches(s, f, n, v) ==> !OverflowsAt(s, f, v)
  }

  lemma NoOverflowLater(s0: State, s: State, f: nat, c: nat, v: nat)
    requires WellFormed(s0) && ForkedBelow(s0, s, f, c, v) && v < L.top && !OverflowsAt(s0, f, v)
    ensures !OverflowsAt(s, f, v)
  {
    assert Pte(s0, f, v) == Pte(s, f, v) by { TranslationKept(s0, s, f); }
    if v < L.npages {
      assert PageSince(s0, s, f, c, v, v);
    }
  }

  lemma ForkPageStep(s0: State, s: State, f: nat, c: nat, v: nat, v': nat)
    requires WellFormed(s0) && ForkedBelow(s0, s, f, c, v) && v < L.top && v' == v + 1
    requires !OverflowsAt(s0, f, v)
    ensures match ForkPage(s, f, c, v)
      case Copied(s') => ForkedBelow(s0, s', f, c, v')
      case OutOfMemory(s') => s' == s && FreePages(s) == {} && Writable(Pte(s0, f, v))
      case CopyPanic => false
  {
    var e := Pte(s, f, v);
    NoOverflowLater(s0, s, f, c, v);
    ForkPageMeaning(s, f, c, v);
    InvFreeUncounted(s);
    AllocFindsFree(s);
    if Writable(e) {
      if Alloc(s).None? {
        TranslationKept(s0, s, f);
      } else {
        GrantStep(s0, s, f, c, v, v', Alloc(s).value, ForkPage(s, f, c, v).s);
      }
    } else if e != ZERO {
      ShareStep(s0, s, f, c, v, v');
    } else {
      NothingStep(s0, s, f, c, v, v');
    }
  }

  /** How fork's loop ends: all pages are copied, or it stops at a writable page k because no page is free. */
  ghost predicate LoopEnded(s0: State, f: nat, c: nat, k: nat, r: CopyResult)
    requires WellFormed(s0) && f < L.nproc
  {
    match r
    case Copied(s') => k == L.top && ForkedBelow(s0, s', f, c, L.top)
    case OutOfMemory(s') =>
      && k < L.top && ForkedBelow(s0, s', f, c, k)
      && FreePages(s') == {} && Writable(Pte(s0, f, k))
    case CopyPanic => false
  }

  /** first is the outcome of the turn for page v, and r that of the loop from page v on. */
  lemma {:induction false} ForkPagesOutcome(s0: State, s: State, f: nat, c: nat, v: nat, v': nat,
                                            first: CopyResult, r: CopyResult)
    returns (k: nat)
    requires WellFormed(s0) && ForkedBelow(s0, s, f, c, v) && NoOverflow(s0, f, |FreePages(s0)|)
    requires v < L.top && v' == v + 1 && first == ForkPage(s, f, c, v)
    requires r == if first.Copied? then ForkPages(first.s, f, c, v') else first
    ensures v <= k <= L.top && LoopEnded(s0, f, c, k, r)
    decreases L.top - v
  {
    assert Reaches(s0, f, |FreePages(s0)|, v);
    ForkPageStep(s0, s, f, c, v, v');
    k := v;
    if first.Copied? && v' == L.top {
      k := v';
    } else if first.Copied? {
      var v'' := v' + 1;
      var second := ForkPagesUnfold(first.s, f, c, v', v'', r);
      k := ForkPagesOutcome(s0, first.s, f, c, v', v'', second, r);
    }
  }
}
