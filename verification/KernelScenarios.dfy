/** Runs that lead to the two ends which the kernel does not guard against: an overflow, and a page without heir. */
module KernelScenarios {
  import opened Collections
  import opened Machine
  import opened KernelState
  import opened KernelInvariant
  import opened KernelSteps
  import opened KernelFork
  import opened KernelSyscalls
  import opened KernelForkTheorem
  import opened KernelTheorems
  import opened KernelRuns
  import opened KernelService

  // Forks that fail, again and again

  /** There is a slot and memory to enter fork's loop, but not enough to finish it. */
  ghost predicate ForkRunsOut(s: State) {
    Good(s) && FreeSlot(s, 1).Some? && |FreePages(s)| >= 2 && !CanFork(s)
  }

  /** Page v is shared, and fork comes to it. */
  ghost predicate Reached(s: State, v: nat)
    requires WellFormed(s)
  {
    UserPage(v) && SharesAt(s, s.current, v) && Reaches(s, s.current, |FreePages(s)| - 2, v)
  }

  /** No page that fork comes to has more references than v. */
  ghost predicate MostShared(s: State, v: nat)
    requires WellFormed(s) && v < L.npages
  {
    forall w :: UserPage(w) && w < L.npages && Reached(s, w) ==> s.refcount[w] <= s.refcount[v]
  }

  lemma ReachedIsOwned(s: State, v: nat)
    requires Good(s) && Reached(s, v)
    ensures v < L.npages && 0 <= s.refcount[v] <= 127
  {
    EntryKinds(s, s.current, v);
    assert PageOk(s, v);
  }

  /** Fork gives up above every shared page that it comes to. */
  lemma StopsAbove(s: State, k: nat, v: nat)
    requires WellFormed(s) && FreeSlot(s, 1).Some? && |FreePages(s)| >= 2 && StopsAt(s, k) && Reached(s, v)
    ensures v < k
  {
    if v > k {
      WritableBelowStep(s, s.current, k);
      SubsetSize(WritableBelow(s, s.current, k + 1), WritableBelow(s, s.current, v));
    }
  }

  /** What the caller sees tells which of its pages are shared, and which can be written. */
  lemma SameViewsSameReach(s: State, s': State, v: nat)
    requires WellFormed(s) && WellFormed(s') && s'.current == s.current && FreePages(s') == FreePages(s)
    requires forall w :: L.start <= w < L.top ==> View(s', s.current, w) == View(s, s.current, w)
    requires v <= L.top
    ensures WritableBelow(s', s.current, v) == WritableBelow(s, s.current, v)
    ensures v < L.top ==> Reached(s', v) == Reached(s, v)
  {
    forall w | L.start <= w < L.top
      ensures Writable(Pte(s', s.current, w)) == Writable(Pte(s, s.current, w))
      ensures Readable(Pte(s', s.current, w)) == Readable(Pte(s, s.current, w))
    {
      assert View(s', s.current, w) == View(s, s.current, w);
    }
    assert WritableBelow(s', s.current, v) == WritableBelow(s, s.current, v);
  }

  /** Fork comes to the same pages in s' as in s, and they count one more reference. */
  ghost predicate OneMoreEach(s: State, s': State)
    requires WellFormed(s) && WellFormed(s')
  {
    && (forall v :: UserPage(v) ==> Reached(s', v) == Reached(s, v))
    && (forall v :: UserPage(v) && v < L.npages && Reached(s, v) ==> s'.refcount[v] == s.refcount[v] + 1)
  }

  /** After a fork that ran out of memory the next one will as well, and the pages it comes to count one more. */
  lemma FailureLeavesMore(s: State, s': State, k: nat)
    requires ForkRunsOut(s) && ForkedExactly(s, s', k)
    ensures ForkRunsOut(s') && OneMoreEach(s, s')
  {
    SameSlot(s, s', 1);
    assert FreePages(s') == FreePages(s);
    forall v | UserPage(v)
      ensures Reached(s', v) == Reached(s, v)
      ensures v < L.npages && Reached(s, v) ==> s'.refcount[v] == s.refcount[v] + 1
    {
      SameViewsSameReach(s, s', v);
      if Reached(s, v) {
        StopsAbove(s, k, v);
      }
    }
    SameViewsSameReach(s, s', L.top);
  }

  lemma SavedRunsOut(s: State, registers: Registers, s1: State)
    requires ForkRunsOut(s) && s1 == SaveRegisters(s, registers)
    ensures ForkRunsOut(s1) && ForkOverflows(s1) == ForkOverflows(s)
    ensures s1.refcount == s.refcount && forall v :: UserPage(v) ==> Reached(s1, v) == Reached(s, v)
  {
    SaveRegistersKeepsGood(s, registers);
    SaveRegistersKeepsOverflow(s, registers);
    SameSlot(s, s1, 1);
    assert FreePages(s1) == FreePages(s);
    forall v | L.start <= v <= L.top
      ensures WritableBelow(s1, s.current, v) == WritableBelow(s, s.current, v)
    {
    }
  }

  /** In a good state the handler's checks pass, and the system call is carried out. */
  lemma StepDispatches(s: State, registers: Registers, cause: Cause, s1: State)
    requires Good(s) && s1 == SaveRegisters(s, registers)
    ensures Good(s1) && Step(s, Trap(registers, cause)) == Dispatch(s1, cause)
  {
    SaveRegistersKeepsGood(s, registers);
    InvariantIsChecked(s1);
  }

  lemma StepForks(s: State, registers: Registers, s1: State, s': State)
    requires Good(s) && s1 == SaveRegisters(s, registers) && SysFork(s1) == Running(s')
    ensures Step(s, Trap(registers, SyscallFork)) == Running(s')
  {
    StepDispatches(s, registers, SyscallFork, s1);
  }

  lemma ForkThatFails(s: State) returns (s': State)
    requires ForkRunsOut(s) && !ForkOverflows(s)
    ensures SysFork(s) == Running(s') && ForkRunsOut(s') && OneMoreEach(s, s')
  {
    var k;
    s', k := ForkTheorem(s);
    FailureLeavesMore(s, s', k);
  }

  lemma OneMoreSince(s: State, s1: State, s': State)
    requires WellFormed(s) && WellFormed(s1) && WellFormed(s') && OneMoreEach(s1, s')
    requires s1.refcount == s.refcount && forall v :: UserPage(v) ==> Reached(s1, v) == Reached(s, v)
    ensures OneMoreEach(s, s')
  {
  }

  lemma FailingFork(s: State, registers: Registers) returns (s': State)
    requires ForkRunsOut(s) && !ForkOverflows(s)
    ensures Step(s, Trap(registers, SyscallFork)) == Running(s') && ForkRunsOut(s') && OneMoreEach(s, s')
  {
    var s1 := SaveRegisters(s, registers);
    assert ForkRunsOut(s1) && !ForkOverflows(s1) by { SavedRunsOut(s, registers, s1); }
    s' := ForkThatFails(s1);
    assert OneMoreEach(s, s') by {
      SavedRunsOut(s, registers, s1);
      OneMoreSince(s, s1, s');
    }
    StepForks(s, registers, s1, s');
  }

  function Forks(registers: Registers, n: nat): (es: seq<Event>)
    ensures |es| == n
  {
    if n == 0 then [] else [Trap(registers, SyscallFork)] + Forks(registers, n - 1)
  }

  /** Event k of es is allowed, and leads from the k-th of the states to the next. */
  ghost predicate Link(states: seq<State>, es: seq<Event>, k: nat)
    requires k + 1 < |states| && k < |es|
  {
    && WellFormed(states[k]) && Allowed(states[k], es[k]) && Step(states[k], es[k]) == Running(states[k + 1])
  }

  ghost predicate Trace(s: State, states: seq<State>, es: seq<Event>, t: State) {
    && |states| == |es| + 1 && states[0] == s && states[|es|] == t
    && (forall k :: 0 <= k < |es| ==> Link(states, es, k))
  }

  /** The events es, which are all allowed, lead from s to t; see GetsIsRun. */
  ghost predicate Gets(s: State, es: seq<Event>, t: State) {
    exists states :: Trace(s, states, es, t)
  }

  lemma {:induction false} TraceIsRun(s: State, states: seq<State>, es: seq<Event>, t: State)
    requires WellFormed(s) && Trace(s, states, es, t)
    ensures AllowedAlong(s, es) && Run(s, es) == Running(t)
    decreases es
  {
    if es != [] {
      assert Link(states, es, 0);
      forall k | 0 <= k < |es| - 1
        ensures Link(states[1..], es[1..], k)
      {
        assert Link(states, es, k + 1);
      }
      TraceIsRun(states[1], states[1..], es[1..], t);
    }
  }

  lemma GetsIsRun(s: State, es: seq<Event>, t: State)
    requires WellFormed(s) && Gets(s, es, t)
    ensures AllowedAlong(s, es) && Run(s, es) == Running(t)
  {
    var states :| Trace(s, states, es, t);
    TraceIsRun(s, states, es, t);
  }

  lemma GetsNowhere(s: State)
    ensures Gets(s, [], s)
  {
    assert Trace(s, [s], [], s);
  }

  lemma GetsOne(s: State, e: Event, s': State)
    requires WellFormed(s) && Allowed(s, e) && Step(s, e) == Running(s')
    ensures Gets(s, [e], s')
  {
    assert Link([s, s'], [e], 0);
    assert Trace(s, [s, s'], [e], s');
  }

  lemma LinkOfBoth(states: seq<State>, es: seq<Event>, states1: seq<State>, es1: seq<Event>,
                   states': seq<State>, es': seq<Event>, k: nat)
    requires |states| == |es| + 1 && |states1| == |es1| + 1 && states[|es|] == states1[0]
    requires states' == states + states1[1..] && es' == es + es1 && k < |es'|
    requires if k < |es| then Link(states, es, k) else Link(states1, es1, k - |es|)
    ensures Link(states', es', k)
  {
    if k < |es| {
      assert states'[k] == states[k] && states'[k + 1] == states[k + 1];
    } else {
      assert states'[k] == states1[k - |es|] && states'[k + 1] == states1[k - |es| + 1];
    }
  }

  lemma GetsFurther(s: State, es: seq<Event>, s1: State, es1: seq<Event>, t: State)
    requires Gets(s, es, s1) && Gets(s1, es1, t)
    ensures Gets(s, es + es1, t)
  {
    var states :| Trace(s, states, es, s1);
    var states1 :| Trace(s1, states1, es1, t);
    var states', es' := states + states1[1..], es + es1;
    forall k | 0 <= k < |es'|
      ensures Link(states', es', k)
    {
      LinkOfBoth(states, es, states1, es1, states', es', k);
    }
    assert Trace(s, states', es', t);
  }

  lemma GoesOn(s: State, e: Event, s': State, es: seq<Event>, t: State)
    requires WellFormed(s) && Allowed(s, e) && Step(s, e) == Running(s') && Gets(s', es, t)
    ensures Gets(s, [e] + es, t)
  {
    GetsOne(s, e, s');
    GetsFurther(s, [e], s', es, t);
  }

  lemma OneMoreFork(s: State, registers: Registers, s': State, n: nat, t: State)
    requires WellFormed(s) && !ForkOverflows(s)
    requires Step(s, Trap(registers, SyscallFork)) == Running(s') && Gets(s', Forks(registers, n), t)
    ensures Gets(s, Forks(registers, n + 1), t)
  {
    GoesOn(s, Trap(registers, SyscallFork), s', Forks(registers, n), t);
  }

  /** From page v's count m on, n forks have led to state t, in which the next fork overflows. */
  ghost predicate OverflowsAfter(s: State, registers: Registers, v: nat, m: nat, n: nat, t: State)
    requires WellFormed(s) && v < L.npages
  {
    && n <= 127 - m && (MostShared(s, v) ==> n == 127 - m)
    && Gets(s, Forks(registers, n), t) && Good(t) && ForkOverflows(t)
  }

  lemma OverflowsNow(s: State, registers: Registers, v: nat, m: nat)
    requires Good(s) && ForkOverflows(s) && Reached(s, v) && v < L.npages && m == s.refcount[v]
    ensures OverflowsAfter(s, registers, v, m, 0, s)
  {
    assert m <= 127 by { ReachedIsOwned(s, v); }
    GetsNowhere(s);
    if MostShared(s, v) {
      OverflowsAtMost(s, v);
    }
  }

  lemma OverflowsLater(s: State, registers: Registers, v: nat, m: nat, s': State, n: nat, t: State)
    requires WellFormed(s) && WellFormed(s') && v < L.npages && UserPage(v) && Reached(s, v) && !ForkOverflows(s)
    requires Step(s, Trap(registers, SyscallFork)) == Running(s') && OneMoreEach(s, s') && m == s.refcount[v]
    requires OverflowsAfter(s', registers, v, m + 1, n, t)
    ensures OverflowsAfter(s, registers, v, m, n + 1, t)
  {
    OneMoreFork(s, registers, s', n, t);
    if MostShared(s, v) {
      forall w | UserPage(w) && w < L.npages && Reached(s', w)
        ensures s'.refcount[w] <= s'.refcount[v]
      {
        assert Reached(s, w);
      }
      assert MostShared(s', v);
    }
  }

  lemma {:induction false} FailingForksLead(s: State, registers: Registers, v: nat, m: nat) returns (n: nat, t: State)
    requires ForkRunsOut(s) && Reached(s, v) && v < L.npages && m == s.refcount[v] <= 127
    ensures OverflowsAfter(s, registers, v, m, n, t)
    decreases 127 - m
  {
    if ForkOverflows(s) {
      n, t := 0, s;
      OverflowsNow(s, registers, v, m);
    } else {
      assert m < 127 by { assert !OverflowsAt(s, s.current, v); }
      var s' := FailingFork(s, registers);
      n, t := FailingForksLead(s', registers, v, m + 1);
      OverflowsLater(s, registers, v, m, s', n, t);
      n := n + 1;
    }
  }

  /** The events es are allowed and lead to the good state t, in which a reference count is about to overflow. */
  ghost predicate OverflowsNext(s: State, es: seq<Event>, t: State)
    requires WellFormed(s)
  {
    Gets(s, es, t) && Good(t) && ForkOverflows(t)
  }

  /** There is a run of allowed events after which a reference count is about to overflow. */
  ghost predicate CanOverflow(s: State)
    requires WellFormed(s)
  {
    exists es, t :: OverflowsNext(s, es, t)
  }

  /** From such a state a fork does not lead to a good one. */
  lemma OverflowEnds(t: State, registers: Registers)
    requires Good(t) && ForkOverflows(t)
    ensures !GoodOutcome(Step(t, Trap(registers, SyscallFork)))
  {
    StepIsGoodExactly(t, Trap(registers, SyscallFork));
  }

  /**
   * Once memory has run short, forking again and again, which only fails, leads to a reference count that overflows:
   * if page v is shared and fork comes to it, after no more forks than v's count lacks to 127, and after exactly so
   * many if no other such page has a higher count. The next fork then does what OverflowEnds says.
   */
  lemma FailingForksOverflow(s: State, registers: Registers, v: nat) returns (n: nat, t: State)
    requires ForkRunsOut(s) && Reached(s, v)
    ensures v < L.npages && n <= 127 - s.refcount[v] && (MostShared(s, v) ==> n == 127 - s.refcount[v])
    ensures OverflowsNext(s, Forks(registers, n), t)
  {
    ReachedIsOwned(s, v);
    n, t := FailingForksLead(s, registers, v, s.refcount[v]);
  }

  lemma OverflowsAtMost(s: State, v: nat)
    requires Good(s) && ForkOverflows(s) && Reached(s, v) && v < L.npages && MostShared(s, v)
    ensures s.refcount[v] == 127
  {
    var x: nat :| UserPage(x) && Reaches(s, s.current, |FreePages(s)| - 2, x) && OverflowsAt(s, s.current, x);
    assert Reached(s, x);
    ReachedIsOwned(s, v);
  }

  // Using up memory first

  function AllocAt(registers: Registers, u: nat): Event
    requires u < ENTRIES
  {
    Trap(registers.(eax := u * 4096), SyscallPageAlloc)
  }

  /** The current process has taken one more page, for which it has given up what it had at u. */
  ghost predicate OneTaken(s: State, s': State, u: nat)
    requires WellFormed(s) && u < L.top
  {
    && Good(s') && s'.current == s.current && Writable(Pte(s', s.current, u))
    && |FreePages(s')| == |FreePages(s)| - 1 && FreeSlot(s', 1) == FreeSlot(s, 1)
    && (forall w :: L.start <= w < L.top && w != u ==> View(s', s.current, w) == View(s, s.current, w))
  }

  lemma AllocTakes(s: State, u: nat, va: nat) returns (s': State)
    requires Good(s) && UserPage(u) && s.procs[s.current].registers.eax == va && FreePages(s) != {}
    requires va % 4096 == 0 && va / 4096 == u
    ensures SysPageAlloc(s) == Running(s') && OneTaken(s, s', u)
  {
    assert SysPageAlloc(s).Running? && Good(SysPageAlloc(s).s) by { PageAllocIsGood(s); }
    s' := SysPageAlloc(s).s;
    assert s'.current == s.current by { PageAllocReturns(s, s'); }
    PageAllocAnswers(s, va, s');
    var g :| PageArrives(s, s', u, g);
    assert FreeSlot(s', 1) == FreeSlot(s, 1) by {
      PageAllocKeepsProcs(s, s');
      SameSlot(s, s', 1);
    }
  }

  lemma PageAllocKeepsProcs(s: State, s': State)
    requires WellFormed(s) && SysPageAlloc(s) == Running(s')
    ensures forall q :: 0 <= q < L.nproc ==> s'.procs[q].state == s.procs[q].state
  {
  }

  lemma SavedTakes(s: State, s1: State, registers: Registers, s': State, u: nat)
    requires WellFormed(s) && u < L.top && s1 == SaveRegisters(s, registers) && OneTaken(s1, s', u)
    ensures OneTaken(s, s', u)
  {
    assert FreePages(s1) == FreePages(s);
    SameSlot(s, s1, 1);
    assert forall w :: L.start <= w < L.top ==> View(s1, s.current, w) == View(s, s.current, w);
  }

  lemma StepAllocs(s: State, registers: Registers, s1: State, s': State)
    requires Good(s) && s1 == SaveRegisters(s, registers) && SysPageAlloc(s1) == Running(s')
    ensures Step(s, Trap(registers, SyscallPageAlloc)) == Running(s')
  {
    StepDispatches(s, registers, SyscallPageAlloc, s1);
  }

  /** The current process asks for one more page at u. */
  lemma OneMoreAlloc(s: State, registers: Registers, u: nat, e: Event) returns (s': State)
    requires Good(s) && UserPage(u) && FreePages(s) != {} && e == AllocAt(registers, u)
    ensures Allowed(s, e) && Step(s, e) == Running(s') && OneTaken(s, s', u)
  {
    var va := u * 4096;
    assert va % 4096 == 0 && va / 4096 == u;
    var s1 := SaveRegisters(s, e.registers);
    assert Good(s1) by { SaveRegistersKeepsGood(s, e.registers); }
    assert FreePages(s1) == FreePages(s);
    s' := AllocTakes(s1, u, va);
    SavedTakes(s, s1, e.registers, s', u);
    StepAllocs(s, e.registers, s1, s');
  }

  lemma SameViewsSameWritable(s: State, s': State, v: nat)
    requires WellFormed(s) && WellFormed(s') && s'.current == s.current && v < L.top
    requires forall w :: L.start <= w <= v ==> View(s', s.current, w) == View(s, s.current, w)
    ensures WritableBelow(s', s.current, v) == WritableBelow(s, s.current, v)
    ensures UserPage(v) ==> SharesAt(s', s.current, v) == SharesAt(s, s.current, v)
  {
    forall w | L.start <= w <= v
      ensures Writable(Pte(s', s.current, w)) == Writable(Pte(s, s.current, w))
      ensures Readable(Pte(s', s.current, w)) == Readable(Pte(s, s.current, w))
    {
      assert View(s', s.current, w) == View(s, s.current, w);
    }
  }

  /** Fork comes to the shared page v, and there is a writable page u above it. */
  ghost predicate BelowWritable(s: State, v: nat, u: nat) {
    Good(s) && FreeSlot(s, 1).Some? && UserPage(v) && v < u < L.top && Reached(s, v) && Writable(Pte(s, s.current, u))
  }

  /** With memory only for the writable pages below v, fork stops above v. */
  lemma NowRunsOut(s: State, v: nat, u: nat)
    requires BelowWritable(s, v, u) && |FreePages(s)| - 2 == |WritableBelow(s, s.current, v)|
    ensures ForkRunsOut(s)
  {
    var below, all := WritableBelow(s, s.current, v), WritableBelow(s, s.current, L.top);
    assert below + {u} <= all && u !in below;
    SubsetSize(below + {u}, all);
  }

  lemma AllocKeepsBelow(s: State, s': State, v: nat, u: nat)
    requires BelowWritable(s, v, u) && |FreePages(s)| - 2 > |WritableBelow(s, s.current, v)|
    requires OneTaken(s, s', u)
    ensures BelowWritable(s', v, u) && |WritableBelow(s', s.current, v)| == |WritableBelow(s, s.current, v)|
  {
    SameViewsSameWritable(s, s', v);
  }

  lemma {:induction false} MemoryRunsShort(s: State, registers: Registers, v: nat, u: nat)
    returns (es: seq<Event>, t: State)
    requires BelowWritable(s, v, u)
    ensures Gets(s, es, t) && ForkRunsOut(t) && Reached(t, v)
    decreases |FreePages(s)|
  {
    if |FreePages(s)| - 2 == |WritableBelow(s, s.current, v)| {
      es, t := [], s;
      NowRunsOut(s, v, u);
      GetsNowhere(s);
    } else {
      var s' := OneMoreAlloc(s, registers, u, AllocAt(registers, u));
      AllocKeepsBelow(s, s', v, u);
      es, t := MemoryRunsShort(s', registers, v, u);
      GoesOn(s, AllocAt(registers, u), s', es, t);
      es := [AllocAt(registers, u)] + es;
    }
  }

  /**
   * Any process with a shared page that fork comes to and a writable page above it, such as its stack, can bring a
   * reference count to overflow by system calls of its own, each of which is allowed.
   */
  lemma AnyShareOverflows(s: State, registers: Registers, v: nat, u: nat)
    requires WellFormed(s)
    ensures BelowWritable(s, v, u) ==> CanOverflow(s)
  {
    if BelowWritable(s, v, u) {
      var first, s1 := MemoryRunsShort(s, registers, v, u);
      var n, t := FailingForksOverflow(s1, registers, v);
      GetsFurther(s, first, s1, Forks(registers, n), t);
      assert OverflowsNext(s, first + Forks(registers, n), t);
    }
  }

  // A child that exits before its father

  /** Only the current process is live. */
  ghost predicate Alone(s: State) {
    Good(s) && forall q :: 1 <= q < L.nproc && Live(s, q) ==> q == s.current
  }

  /** Only f and c are live; what c owns is its own alone, and f owns page v, which has another reference. */
  ghost predicate Pair(s: State, f: nat, c: nat, v: nat) {
    && Good(s) && f != c && Runnable(s, f) && Runnable(s, c) && v < L.npages
    && (forall q :: 1 <= q < L.nproc && Live(s, q) ==> q == f || q == c)
    && (forall g :: 0 <= g < L.npages && s.owner[g] == c ==> s.refcount[g] == 1)
    && s.owner[v] == f && s.refcount[v] > 1
  }

  lemma ForkMakesPair(s: State, s': State, f: nat, c: nat, k: nat, v: nat)
    requires Alone(s) && f == s.current && CanFork(s) && c == FreeSlot(s, 1).value && ForkedExactly(s, s', k)
    requires UserPage(v) && SharesAt(s, f, v) && v < L.npages && s.owner[v] == f
    ensures Pair(s', f, c, v)
  {
    assert PageAfterFork(s, s', f, c, v) && PageOk(s, v);
    forall g | 0 <= g < L.npages && s'.owner[g] == c
      ensures s'.refcount[g] == 1
    {
      assert PageAfterFork(s, s', f, c, g) && PageOk(s, g);
    }
    assert Runnable(s', f) && Runnable(s', c);
    assert forall q :: 1 <= q < L.nproc && q != f && q != c ==> Live(s', q) == Live(s, q);
  }

  lemma ForkedAlone(s: State, f: nat, v: nat) returns (s': State, c: nat)
    requires Alone(s) && f == s.current && CanFork(s) && !ForkOverflows(s)
    requires UserPage(v) && SharesAt(s, f, v) && v < L.npages && s.owner[v] == f
    ensures SysFork(s) == Running(s') && s'.current == f && Pair(s', f, c, v)
  {
    var k;
    s', k := ForkTheorem(s);
    c := FreeSlot(s, 1).value;
    ForkMakesPair(s, s', f, c, k, v);
  }

  lemma ForkAlone(s: State, registers: Registers, f: nat, v: nat) returns (s': State, c: nat)
    requires Alone(s) && f == s.current && CanFork(s) && !ForkOverflows(s)
    requires UserPage(v) && SharesAt(s, f, v) && v < L.npages && s.owner[v] == f
    ensures Step(s, Trap(registers, SyscallFork)) == Running(s') && s'.current == f && Pair(s', f, c, v)
  {
    var s1 := SaveRegisters(s, registers);
    SaveRegistersKeepsGood(s, registers);
    SaveRegistersKeepsOverflow(s, registers);
    assert CanFork(s1) by { SavedCanFork(s, registers, s1); }
    assert forall q :: 1 <= q < L.nproc ==> Live(s1, q) == Live(s, q);
    s', c := ForkedAlone(s1, f, v);
    StepForks(s, registers, s1, s');
  }

  lemma SavedCanFork(s: State, registers: Registers, s1: State)
    requires WellFormed(s) && s1 == SaveRegisters(s, registers)
    ensures CanFork(s1) == CanFork(s)
  {
    SameSlot(s, s1, 1);
    assert FreePages(s1) == FreePages(s);
    assert WritableBelow(s1, s.current, L.top) == WritableBelow(s, s.current, L.top);
  }

  /** If only one other process is runnable, the scheduler chooses it. */
  lemma OnlyChoice(s: State, q: nat)
    requires Inv(s) && Runnable(s, q) && q != s.current
    requires forall r :: 1 <= r < L.nproc && Live(s, r) ==> r == q || r == s.current
    ensures Schedule(s) == Running(s.(current := q)) && Good(s.(current := q))
  {
    NextRunnableFinds(s, s.current, L.nproc, q);
    NextRunnableIsNearest(s, s.current, L.nproc, q);
    assert Live(s, NextRunnable(s, s.current, L.nproc).value);
    ScheduleIsGood(s);
  }

  lemma PairKept(s: State, s': State, f: nat, c: nat, v: nat)
    requires Pair(s, f, c, v) && Good(s') && s'.owner == s.owner && s'.refcount == s.refcount
    requires forall q :: 0 <= q < L.nproc ==> s'.procs[q].state == s.procs[q].state
    ensures Pair(s', f, c, v)
  {
    assert forall q :: 1 <= q < L.nproc ==> Live(s', q) == Live(s, q);
  }

  lemma FatherYields(s: State, registers: Registers, f: nat, c: nat, v: nat) returns (s': State)
    requires Pair(s, f, c, v) && s.current == f
    ensures Step(s, Trap(registers, SyscallYield)) == Running(s') && s'.current == c && Pair(s', f, c, v)
  {
    var s1 := SaveRegisters(s, registers);
    StepDispatches(s, registers, SyscallYield, s1);
    PairKept(s, s1, f, c, v);
    OnlyChoice(s1, c);
    s' := s1.(current := c);
    PairKept(s1, s', f, c, v);
  }

  /** The child's own pages are released; the reference that it holds to page v is not. */
  lemma ChildReleased(s: State, f: nat, c: nat, v: nat) returns (s': State)
    requires Pair(s, f, c, v) && s.current == c
    ensures SysExit(s) == Running(s') && s'.current == f && Alone(s') && s'.owner[v] == f && s'.refcount[v] > 1
  {
    ReleaseTheorem(s, c);
    var r := Release(s, c).value;
    ReleaseKeepsInv(s, c);
    assert ReleasedAt(s, c, r, v);
    forall q | 1 <= q < L.nproc && Live(r, q)
      ensures q == f
    {
      assert Live(s, q) && q != c;
    }
    OnlyChoice(r, f);
    s' := r.(current := f);
    assert forall q :: 1 <= q < L.nproc ==> Live(s', q) == Live(r, q);
  }

  lemma ChildExits(s: State, registers: Registers, f: nat, c: nat, v: nat) returns (s': State)
    requires Pair(s, f, c, v) && s.current == c
    ensures Step(s, Trap(registers, SyscallExit)) == Running(s')
    ensures s'.current == f && Alone(s') && s'.owner[v] == f && s'.refcount[v] > 1
  {
    var s1 := SaveRegisters(s, registers);
    StepDispatches(s, registers, SyscallExit, s1);
    PairKept(s, s1, f, c, v);
    s' := ChildReleased(s1, f, c, v);
  }

  lemma LastExits(s: State, registers: Registers, v: nat)
    requires Alone(s) && v < L.npages && s.owner[v] == s.current && s.refcount[v] > 1
    ensures Step(s, Trap(registers, SyscallExit)) == Halted
  {
    forall q | 1 <= q < L.nproc && q != s.current
      ensures !CanInherit(s, q, v)
    {
      assert !Live(s, q);
    }
    StepIsGood(s, Trap(registers, SyscallExit));
  }

  /**
   * A process that shares a page of its program with a child cannot exit any more once the child has: the child's
   * reference is never given back, and nobody is left to inherit the page, so that the kernel stops.
   */
  lemma ChildsShareIsNeverGivenBack(s: State, v: nat, r0: Registers, r1: Registers, r2: Registers, r3: Registers,
                                    es: seq<Event>)
    requires Alone(s) && CanFork(s) && !ForkOverflows(s)
    requires UserPage(v) && SharesAt(s, s.current, v) && v < L.npages && s.owner[v] == s.current
    requires es == [Trap(r0, SyscallFork), Trap(r1, SyscallYield), Trap(r2, SyscallExit), Trap(r3, SyscallExit)]
    ensures Run(s, es) == Halted
  {
    var f := s.current;
    var s1, c := ForkAlone(s, r0, f, v);
    var s2 := FatherYields(s1, r1, f, c, v);
    var s3 := ChildExits(s2, r2, f, c, v);
    LastExits(s3, r3, v);
    assert Run(s3, [Trap(r3, SyscallExit)]) == Halted;
    assert Run(s2, [Trap(r2, SyscallExit), Trap(r3, SyscallExit)]) == Halted;
    assert es[1..] == [Trap(r1, SyscallYield), Trap(r2, SyscallExit), Trap(r3, SyscallExit)];
    assert Run(s1, es[1..]) == Halted;
  }
}
