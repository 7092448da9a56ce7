/** The lock protocol of pong61's threads, over all interleavings. */
module PongLocks {
  import opened PongPool
  import opened Pong

  /** A mutex is held by exactly the worker whose program counter says so. */
  ghost predicate LocksAgree(s: State, w: nat)
    requires w < |s.workers|
  {
    var me := s.workers[w];
    && (s.locks.server == Held(w) <==> HoldsServer(me))
    && (s.locks.send == Held(w) <==> HoldsSend(me))
    && (s.locks.connection == Held(w) <==> HoldsConn(me))
    && (s.locks.thread == Held(w) <==> HoldsThread(me))
  }

  /** The worker's flags fit its place, and it has unlocked as often as it should have by then. */
  predicate LocalOk(w: Worker) {
    && (w.pc.Relock? || w.pc.Wake? ==> w.needToRelock)
    && (w.pc.DelaySend? || w.pc.DelayServer? || w.pc.FreeSend? || w.pc.FreeServer? || w.pc.Backoff? ==>
          !w.needToRelock)
    && w.tally.serverTaken == (if w.pc.Start? then 0 else 1)
    && w.tally.serverGiven == w.tally.serverTaken - (if HoldsServer(w) then 1 else 0)
    && w.tally.sendGiven == w.tally.sendTaken - (if HoldsSend(w) then 1 else 0)
  }

  predicate MainHolds(m: MainPc) {
    m.Read? || m.Unread? || m.Growing? || m.Grown?
  }

  predicate InRange(m: Mutex, n: nat) {
    m.Held? ==> m.holder < n
  }

  ghost predicate LocksOk(s: State) {
    && (forall w :: 0 <= w < |s.workers| ==> LocksAgree(s, w))
    && (forall w :: 0 <= w < |s.workers| ==> LocalOk(s.workers[w]))
    && InRange(s.locks.server, |s.workers|) && InRange(s.locks.send, |s.workers|)
    && InRange(s.locks.connection, |s.workers|) && InRange(s.locks.thread, |s.workers|)
    && !s.locks.server.HeldByMain? && !s.locks.send.HeldByMain? && !s.locks.connection.HeldByMain?
    && (s.locks.thread.HeldByMain? <==> MainHolds(s.main))
  }

  /** A worker only takes a free mutex and only frees its own. */
  predicate MutexStep(before: Mutex, after: Mutex, w: nat) {
    after == before || (before == Free && after == Held(w)) || (before == Held(w) && after == Free)
  }

  ghost predicate KeepsOwn(s: State, s': State, w: nat)
    requires w < |s.workers| && OnlyWorker(s, s', w)
  {
    && LocalOk(s'.workers[w]) && LocksAgree(s', w)
    && MutexStep(s.locks.server, s'.locks.server, w) && MutexStep(s.locks.send, s'.locks.send, w)
    && MutexStep(s.locks.connection, s'.locks.connection, w) && MutexStep(s.locks.thread, s'.locks.thread, w)
  }

  /** Going from one place to another fits taking (`took`) or giving back the mutex l, and touching no other. */
  predicate Toggles(before: Worker, after: Worker, l: Lock, took: bool) {
    && (HoldsServer(before) == if l.ServerLock? then !took else HoldsServer(after))
    && (HoldsSend(before) == if l.SendLock? then !took else HoldsSend(after))
    && (HoldsConn(before) == if l.ConnLock? then !took else HoldsConn(after))
    && (HoldsThread(before) == if l.ThreadLock? then !took else HoldsThread(after))
    && (l.ServerLock? ==> HoldsServer(after) == took) && (l.SendLock? ==> HoldsSend(after) == took)
    && (l.ConnLock? ==> HoldsConn(after) == took) && (l.ThreadLock? ==> HoldsThread(after) == took)
  }

  lemma TakingToggles(w: Worker)
    requires LocalOk(w) && Wants(w.pc).Some?
    ensures Toggles(w, Then(w), Wants(w.pc).value, true)
    ensures LocalOk(Then(w).(tally := w.tally.Take(Wants(w.pc).value)))
  {
  }

  lemma GivingToggles(w: Worker)
    requires LocalOk(w) && Gives(w.pc).Some?
    ensures Toggles(w, Then(w), Gives(w.pc).value, false)
    ensures LocalOk(Then(w).(tally := w.tally.Give(Gives(w.pc).value)))
  {
  }

  lemma AcquireKeepsOwn(s: State, w: nat)
    requires w < |s.workers| && LocksAgree(s, w) && LocalOk(s.workers[w])
    requires Wants(s.workers[w].pc).Some? && s.locks.Get(Wants(s.workers[w].pc).value).Free?
    ensures KeepsOwn(s, Acquire(s, w), w)
  {
    TakingToggles(s.workers[w]);
  }

  lemma ReleaseKeepsOwn(s: State, w: nat)
    requires w < |s.workers| && LocksAgree(s, w) && LocalOk(s.workers[w])
    requires Gives(s.workers[w].pc).Some?
    ensures Release(s, w).Running? && KeepsOwn(s, Release(s, w).s, w)
  {
    GivingToggles(s.workers[w]);
  }

  predicate SameHolding(before: Worker, after: Worker) {
    && HoldsServer(after) == HoldsServer(before) && HoldsSend(after) == HoldsSend(before)
    && HoldsConn(after) == HoldsConn(before) && HoldsThread(after) == HoldsThread(before)
  }

  /** The control flow of the steps that neither lock nor unlock, and the flags under which they take each way. */
  predicate Flow(before: Worker, after: Worker) {
    match before.pc
    case Move => after.pc.PoolLock?
    case PoolScan => after.pc.PoolUnlock?
    case PoolRead => after.pc.LockSend?
    case Send => after.pc.Receive? && !after.needToRelock
    case Receive =>
      after.needToRelock == before.needToRelock &&
      (after.pc.Fetch? || after.pc.Judge? ||
       if before.needToRelock then after.pc.Relock? else after.pc.DelaySend? || after.pc.Sleep?)
    case Fetch => after.needToRelock == before.needToRelock && after.pc.Receive?
    case Sleep =>
      after.needToRelock == before.needToRelock && after.pc == if before.needToRelock then Wake else Judge
    case Judge =>
      after.needToRelock == before.needToRelock &&
      if before.needToRelock then after.pc.Report? else after.pc.FreeSend? || after.pc.Backoff?
    case Report => after.pc.PutLock? && !after.retry
    case Put => after.pc.PutUnlock? && after.retry == before.retry
    case Count => after.pc.CountUnlock?
    case _ => false
  }

  lemma ActFlows(s: State, w: nat, i: Input, s': State)
    requires w < |s.workers| && Act(s, w, i) == Running(s')
    requires Wants(s.workers[w].pc).None? && Gives(s.workers[w].pc).None? && s.workers[w].pc != Gone
    ensures s'.locks == s.locks
    ensures Flow(s.workers[w], s'.workers[w]) && s'.workers[w].tally == s.workers[w].tally
  {
  }

  lemma FlowKeepsHeld(before: Worker, after: Worker)
    requires LocalOk(before) && Flow(before, after) && after.tally == before.tally
    ensures LocalOk(after) && SameHolding(before, after)
  {
  }

  lemma WorkerKeepsLocks(s: State, w: nat, i: Input, s': State)
    requires LocksOk(s)
    requires Enabled(s, WorkerThread(w)) && WorkerStep(s, w, i) == Running(s')
    ensures LocksOk(s')
  {
    assert LocksAgree(s, w) && LocalOk(s.workers[w]);
    if Wants(s.workers[w].pc).Some? {
      AcquireKeepsOwn(s, w);
    } else if Gives(s.workers[w].pc).Some? {
      ReleaseKeepsOwn(s, w);
    } else {
      ActFlows(s, w, i, s');
      FlowKeepsHeld(s.workers[w], s'.workers[w]);
    }
    assert KeepsOwn(s, s', w);
    forall v | 0 <= v < |s'.workers| ensures LocksAgree(s', v) && LocalOk(s'.workers[v]) {
      assert LocksAgree(s, v) && LocalOk(s.workers[v]);
    }
  }

  lemma MainKeepsLocks(s: State, s': State)
    requires LocksOk(s)
    requires Enabled(s, MainThread) && MainStep(s) == Running(s')
    ensures LocksOk(s')
  {
    forall v | 0 <= v < |s'.workers| ensures LocksAgree(s', v) && LocalOk(s'.workers[v]) {
      if v < |s.workers| {
        assert LocksAgree(s, v) && LocalOk(s.workers[v]);
      }
    }
  }

  /** No thread ever unlocks a mutex that it does not hold. */
  lemma UnlocksOwnMutexes(s: State, t: Thread, i: Input)
    requires LocksOk(s) && Enabled(s, t)
    ensures Step(s, t, i) != Failed(NotHeld)
  {
    if t.WorkerThread? {
      assert LocksAgree(s, t.id) && LocalOk(s.workers[t.id]);
    }
  }

  /** A worker that has finished released serverLock exactly once and sendLock as often as it took it. */
  lemma FinishedHoldsNothing(s: State, w: nat)
    requires LocksOk(s) && w < |s.workers| && s.workers[w].pc == Gone
    ensures s.workers[w].tally.serverTaken == 1 && s.workers[w].tally.serverGiven == 1
    ensures s.workers[w].tally.sendTaken == s.workers[w].tally.sendGiven
    ensures forall l :: s.locks.Get(l) != Held(w)
  {
    assert LocksAgree(s, w) && LocalOk(s.workers[w]);
  }

  // Deadlock

  predicate Blocked(s: State, t: Thread) {
    match t
    case MainThread => !Enabled(s, t)
    case WorkerThread(w) => w < |s.workers| && s.workers[w].pc != Gone && !Enabled(s, t)
  }

  /** The mutex for which a thread waits. */
  function Awaited(s: State, t: Thread): Mutex
    requires Blocked(s, t)
  {
    match t
    case MainThread => s.locks.thread
    case WorkerThread(w) => s.locks.Get(Wants(s.workers[w].pc).value)
  }

  /** The thread that a blocked thread waits for. */
  function WaitsFor(s: State, t: Thread): Thread
    requires Blocked(s, t)
  {
    match Awaited(s, t)
    case Held(h) => WorkerThread(h)
    case _ => MainThread
  }

  /** Whoever holds connLock, sendLock or threadLock can go on. */
  lemma InnerHoldersRun(s: State, w: nat)
    requires LocksOk(s) && w < |s.workers|
    requires s.locks.send == Held(w) || s.locks.connection == Held(w) || s.locks.thread == Held(w)
    ensures Enabled(s, WorkerThread(w))
  {
    assert LocksAgree(s, w) && LocalOk(s.workers[w]);
  }

  /**
   * There is no deadlock: a thread that waits is at most two waits away from a thread that can go on, because a holder
   * of serverLock waits for connLock or sendLock alone, and the holders of the other mutexes wait for nothing.
   */
  lemma NoDeadlock(s: State, t: Thread)
    requires LocksOk(s) && Blocked(s, t)
    ensures var first := WaitsFor(s, t);
      Enabled(s, first) || (Blocked(s, first) && Enabled(s, WaitsFor(s, first)))
  {
    var first := WaitsFor(s, t);
    match Awaited(s, t)
    case Held(h) =>
      assert h < |s.workers|;
      HolderRuns(s, h, if t.MainThread? then ThreadLock else Wants(s.workers[t.id].pc).value);
    case _ =>
  }

  lemma HolderRuns(s: State, h: nat, l: Lock)
    requires LocksOk(s) && h < |s.workers|
    requires s.locks.Get(l) == Held(h)
    ensures Enabled(s, WorkerThread(h))
         || (Blocked(s, WorkerThread(h)) && Enabled(s, WaitsFor(s, WorkerThread(h))))
  {
    assert LocksAgree(s, h) && LocalOk(s.workers[h]);
    var t := WorkerThread(h);
    if s.locks.server == Held(h) && Blocked(s, t) {
      var inner := Awaited(s, t);
      assert inner == s.locks.send || inner == s.locks.connection;
      assert inner.Held? && InRange(inner, |s.workers|);
      InnerHoldersRun(s, inner.holder);
    } else if s.locks.server != Held(h) {
      InnerHoldersRun(s, h);
    }
  }

  /** While an answer "+wait" makes a worker sleep, no other worker is about to send. */
  lemma SilenceWhileWaiting(s: State, sleeper: nat, sender: nat)
    requires LocksOk(s) && sleeper < |s.workers| && sender < |s.workers|
    requires s.workers[sleeper].pc == Sleep
    ensures s.workers[sender].pc != Send
  {
    assert LocksAgree(s, sleeper) && LocksAgree(s, sender);
  }

  /** A worker that reads on after its second look, other than in the headers, holds no mutex while it reads. */
  lemma SlowAnswersFreeLocks(s: State, w: nat, i: Input, s': State)
    requires LocksOk(s) && Enabled(s, WorkerThread(w)) && s.workers[w].pc == Receive && s.workers[w].reps > 0
    requires WorkerStep(s, w, i) == Running(s') && s'.workers[w].pc == Fetch && i.state != HEADERS
    ensures forall l :: s'.locks.Get(l) != Held(w)
  {
    WorkerKeepsLocks(s, w, i, s');
    assert LocksAgree(s', w);
  }
}
