/**
 * The kernel's invariant: who may own what, what page tables may point to, and what reference counts promise.
 */
module KernelInvariant {
  import opened Machine
  import opened KernelState

  predicate Live(s: State, q: nat)
    requires WellFormed(s)
  {
    1 <= q < L.nproc && s.procs[q].state != P_FREE
  }

  /** Virtual page v belongs to the user's part of the address space. */
  predicate UserPage(v: int) {
    L.start <= v < L.top
  }

  /** The page-table page of process q. */
  function Table(s: State, q: nat): nat
    requires WellFormed(s) && q < L.nproc
  {
    Read(s.mem, s.procs[q].pagedir, 0).frame
  }

  /** Process q can at least read physical page g through some page of the user area. */
  predicate MapsForUser(s: State, q: nat, g: nat)
    requires WellFormed(s) && q < L.nproc
  {
    exists v :: L.start <= v < L.top && MapsAt(s, q, v, g)
  }

  predicate MapsAt(s: State, q: nat, v: nat, g: nat)
    requires WellFormed(s) && q < L.nproc && v < L.top
  {
    Readable(Pte(s, q, v)) && Pte(s, q, v).frame == g
  }

  /** Process q is live and owns page g or has it mapped. */
  predicate Uses(s: State, q: nat, g: nat)
    requires WellFormed(s) && g < L.npages
  {
    Live(s, q) && (s.owner[g] == q || MapsForUser(s, q, g))
  }

  ghost function Users(s: State, g: nat): (r: set<nat>)
    requires WellFormed(s) && g < L.npages
  {
    set q: nat | q < L.nproc && Uses(s, q, g)
  }

  // The parts of the invariant

  /**
   * What every page table, the kernel's and the processes', holds for a virtual page below the user area: the kernel's
   * memory, closed to users but for the console. Above, the kernel's own table maps memory identically.
   */
  function KernelEntry(v: nat): Word
    requires v < ENTRIES
  {
    if v < L.start && v != L.console then MakePte(v, PERM_KERNEL)
    else if v < L.npages then MakePte(v, PERM_USER_WRITE)
    else ZERO
  }

  predicate PagesOk(s: State)
    requires WellFormed(s)
  {
    forall g :: 0 <= g < L.npages ==> PageOk(s, g)
  }

  predicate PageOk(s: State, g: nat)
    requires WellFormed(s) && g < L.npages
  {
    && 0 <= s.refcount[g] <= 127
    && (s.owner[g] == PO_FREE <==> s.refcount[g] == 0)
    && (s.owner[g] > 0 ==> Live(s, s.owner[g]))
    && PO_KERNEL <= s.owner[g]
    // only pages that a program was loaded into are ever shared
    && (s.owner[g] > 0 && s.refcount[g] > 1 ==> L.start <= g)
  }

  /** Page g is owned by process q, which is the only one to refer to it. */
  predicate Private(s: State, q: nat, g: nat)
    requires WellFormed(s)
  {
    g < L.npages && s.owner[g] == q && s.refcount[g] == 1
  }

  predicate DirectoryOk(s: State, q: nat)
    requires WellFormed(s) && q < L.nproc
  {
    var d := s.procs[q].pagedir;
    && Private(s, q, d)
    && Private(s, q, Table(s, q))
    && Table(s, q) != d
    && Read(s.mem, d, 0) == MakePte(Table(s, q), PERM_USER_WRITE)
    && (forall k :: 1 <= k < ENTRIES ==> !Read(s.mem, d, k).present)
  }

  /** The entry e for virtual page v of process q: kernel pages are identity-mapped and only the console is open. */
  predicate EntryOk(s: State, q: nat, v: nat, e: Word)
    requires WellFormed(s) && q < L.nproc && v < ENTRIES
  {
    if v < L.start then
      e == KernelEntry(v)
    else if v < L.top then
      e == ZERO || OwnEntry(s, q, e) || SharedEntry(s, q, v, e)
    else
      e == ZERO
  }

  predicate OwnEntry(s: State, q: nat, e: Word)
    requires WellFormed(s) && q < L.nproc
  {
    var g := e.frame;
    && Private(s, q, g) && e == MakePte(g, PERM_USER_WRITE)
    && g != s.procs[q].pagedir && g != Table(s, q)
  }

  predicate SharedEntry(s: State, q: nat, v: nat, e: Word)
    requires WellFormed(s) && q < L.nproc
  {
    && v < L.npages && e == MakePte(v, PERM_USER) && s.owner[v] > 0
    && v != s.procs[q].pagedir && v != Table(s, q)
  }

  /** No physical page is mapped twice in the user area of process q. */
  predicate MappedOnce(s: State, q: nat, v: nat, v': nat)
    requires WellFormed(s) && q < L.nproc && v < ENTRIES && v' < ENTRIES
  {
    Pte(s, q, v) != ZERO && Pte(s, q, v') != ZERO ==> Pte(s, q, v).frame != Pte(s, q, v').frame
  }

  predicate ProcessOk(s: State, q: nat)
    requires WellFormed(s) && q < L.nproc
  {
    && s.procs[q].state != P_BLOCKED
    && DirectoryOk(s, q)
    && (forall v :: 0 <= v < ENTRIES ==> EntryOk(s, q, v, Pte(s, q, v)))
    && (forall v, v' :: L.start <= v < v' < L.top ==> MappedOnce(s, q, v, v'))
  }

  /** The reference count of an owned page is at least the number of processes that use it. */
  ghost predicate CountOk(s: State, g: nat)
    requires WellFormed(s) && g < L.npages
  {
    s.owner[g] > 0 ==> |Users(s, g)| <= s.refcount[g]
  }

  predicate KernelOk(s: State)
    requires WellFormed(s)
  {
    && s.procs[0].state == P_FREE
    && s.owner[L.console] == PO_RESERVED
    && DirectoryChecked(s, L.kernelDir, PO_KERNEL, 1)
  }

  ghost predicate Inv(s: State) {
    && WellFormed(s)
    && KernelOk(s)
    && PagesOk(s)
    && (forall q :: 1 <= q < L.nproc && Live(s, q) ==> ProcessOk(s, q))
    && (forall g :: 0 <= g < L.npages ==> CountOk(s, g))
  }
}
