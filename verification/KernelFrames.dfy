/** What a change to memory, owners and counts leaves alone. */
module KernelFrames {
  import opened Wrappers
  import opened Collections
  import opened Machine
  import opened KernelState
  import opened KernelInvariant

  /** With a well-formed directory, translation reads the one page table. */
  lemma PteIsTableEntry(s: State, q: nat, v: nat)
    requires WellFormed(s) && q < L.nproc && v < ENTRIES && DirectoryOk(s, q)
    ensures Pte(s, q, v) == Normal(Read(s.mem, Table(s, q), v))
  {
  }

  /** Mapping one page of a live process writes one entry of its page table. */
  lemma SetEntryWrites(s: State, mem: Memory, q: nat, v: nat, e: Word)
    requires WellFormed(s) && q < L.nproc && DirectoryOk(s, q) && v < ENTRIES
    requires |mem| == L.npages && mem[s.procs[q].pagedir] == s.mem[s.procs[q].pagedir]
    ensures SetEntry(mem, s.procs[q].pagedir, 0, v, e) == Some(Write(mem, Table(s, q), v, e))
  {
    var pde := Read(mem, s.procs[q].pagedir, 0);
    assert pde == Read(s.mem, s.procs[q].pagedir, 0);
    assert DirSlot(pde.frame) == 0;
  }

  /** Nothing that process q's address translation depends on differs between s and s'. */
  predicate SameTranslation(s: State, s': State, q: nat)
    requires WellFormed(s) && WellFormed(s') && q < L.nproc
  {
    && s'.procs[q].pagedir == s.procs[q].pagedir
    && ReadPage(s'.mem, s.procs[q].pagedir) == ReadPage(s.mem, s.procs[q].pagedir)
    && ReadPage(s'.mem, Table(s, q)) == ReadPage(s.mem, Table(s, q))
  }

  lemma TranslationKept(s: State, s': State, q: nat)
    requires WellFormed(s) && WellFormed(s') && q < L.nproc
    requires DirectoryOk(s, q) && SameTranslation(s, s', q)
    ensures Table(s', q) == Table(s, q)
    ensures forall v :: 0 <= v < ENTRIES ==> Pte(s', q, v) == Pte(s, q, v)
    ensures forall g :: MapsForUser(s', q, g) == MapsForUser(s, q, g)
  {
    var d := s.procs[q].pagedir;
    assert forall k :: 0 <= k < ENTRIES ==> Read(s'.mem, d, k) == Read(s.mem, d, k);
    forall v | 0 <= v < ENTRIES
      ensures Pte(s', q, v) == Pte(s, q, v)
    {
    }
    forall g, v | 0 <= v < L.top
      ensures MapsAt(s', q, v, g) == MapsAt(s, q, v, g)
    {
    }
  }

  /** Process q needs page g for itself: it is its directory, its page table or a page that it can write. */
  predicate Relies(s: State, q: nat, g: nat)
    requires WellFormed(s) && q < L.nproc
  {
    || g == s.procs[q].pagedir
    || g == Table(s, q)
    || exists v :: L.start <= v < L.top && OwnsAt(s, q, v, g)
  }

  predicate OwnsAt(s: State, q: nat, v: nat, g: nat)
    requires WellFormed(s) && q < L.nproc && v < L.top
  {
    OwnEntry(s, q, Pte(s, q, v)) && Pte(s, q, v).frame == g
  }

  /** Page g stays q's own if q relies on that, and stays owned by some process if q has it mapped. */
  predicate RightsKept(s: State, s': State, q: nat, g: nat)
    requires WellFormed(s) && WellFormed(s') && q < L.nproc && g < L.npages
  {
    && (Private(s, q, g) && Relies(s, q, g) ==> Private(s', q, g))
    && (s.owner[g] > 0 && MapsForUser(s, q, g) ==> s'.owner[g] > 0)
  }

  lemma SharedEntryIsMapped(s: State, q: nat, v: nat)
    requires WellFormed(s) && q < L.nproc && L.start <= v < L.top
    requires SharedEntry(s, q, v, Pte(s, q, v))
    ensures MapsForUser(s, q, v)
  {
    assert MapsAt(s, q, v, v);
  }

  /** A process whose tables and rights are kept is as well-formed as before. */
  lemma ProcessKept(s: State, s': State, q: nat)
    requires WellFormed(s) && WellFormed(s') && q < L.nproc
    requires ProcessOk(s, q) && SameTranslation(s, s', q) && s'.procs[q].state != P_BLOCKED
    requires forall g :: 0 <= g < L.npages ==> RightsKept(s, s', q, g)
    ensures ProcessOk(s', q)
  {
    TranslationKept(s, s', q);
    var d := s.procs[q].pagedir;
    assert DirectoryOk(s', q) by {
      assert RightsKept(s, s', q, d) && RightsKept(s, s', q, Table(s, q));
      assert forall k :: 0 <= k < ENTRIES ==> Read(s'.mem, d, k) == Read(s.mem, d, k);
    }
    forall v | 0 <= v < ENTRIES
      ensures EntryOk(s', q, v, Pte(s', q, v))
    {
      var e := Pte(s, q, v);
      assert EntryOk(s, q, v, e);
      if UserPage(v) && e != ZERO {
        if OwnEntry(s, q, e) {
          assert OwnsAt(s, q, v, e.frame);
          assert RightsKept(s, s', q, e.frame);
        } else {
          SharedEntryIsMapped(s, q, v);
          assert RightsKept(s, s', q, v);
        }
      }
    }
    forall v, v' | L.start <= v < v' < L.top
      ensures MappedOnce(s', q, v, v')
    {
      assert MappedOnce(s, q, v, v');
    }
  }

  /** A page that a process uses is owned by some process, hence not free, reserved or the kernel's. */
  lemma MappedIsOwned(s: State, q: nat, g: nat)
    requires Inv(s) && Live(s, q) && MapsForUser(s, q, g)
    ensures g < L.npages && s.owner[g] > 0
  {
    var v :| L.start <= v < L.top && MapsAt(s, q, v, g);
    assert ProcessOk(s, q);
    assert EntryOk(s, q, v, Pte(s, q, v));
    if !OwnEntry(s, q, Pte(s, q, v)) {
    }
  }

  lemma FreeHasNoUsers(s: State, g: nat)
    requires Inv(s) && g < L.npages && s.owner[g] <= 0
    ensures Users(s, g) == {}
  {
    if q :| q in Users(s, g) {
      MappedIsOwned(s, q, g);
    }
  }

  /** A page that only one process refers to is used by no other process. */
  lemma PrivateHasOneUser(s: State, q: nat, g: nat)
    requires Inv(s) && Live(s, q) && Private(s, q, g)
    ensures Users(s, g) == {q}
  {
    assert q in Users(s, g);
    assert CountOk(s, g);
    SubsetSameSize({q}, Users(s, g)) by {
      SubsetSize({q}, Users(s, g));
    }
  }

  /** The directory and page table of a live process are used by no one else. */
  lemma TablesArePrivate(s: State, q: nat)
    requires Inv(s) && Live(s, q)
    ensures Users(s, s.procs[q].pagedir) == {q} && Users(s, Table(s, q)) == {q}
    ensures !MapsForUser(s, q, s.procs[q].pagedir) && !MapsForUser(s, q, Table(s, q))
  {
    assert ProcessOk(s, q);
    PrivateHasOneUser(s, q, s.procs[q].pagedir);
    PrivateHasOneUser(s, q, Table(s, q));
    forall v, g | L.start <= v < L.top && MapsAt(s, q, v, g)
      ensures g != s.procs[q].pagedir && g != Table(s, q)
    {
      assert EntryOk(s, q, v, Pte(s, q, v));
      if SharedEntry(s, q, v, Pte(s, q, v)) {
      }
    }
  }
}
