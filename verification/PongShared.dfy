/** Who owns which connection, how many workers there are, and which points they send, over all interleavings. */
module PongShared {
  import opened Wrappers
  import opened Collections
  import opened PongPath
  import opened PongPool
  import opened Pong
  import opened PongLocks

  // Connections

  /** The slot that a worker has taken is in use, by this worker alone, and holds its connection. */
  ghost predicate OwnsSlot(s: State, w: nat)
    requires w < |s.workers|
  {
    var me := s.workers[w];
    HasSlot(me) ==>
      && me.slot < |s.pool.slots| && s.pool.slots[me.slot].status == INUSE
      && me.slot in s.takers && s.takers[me.slot] == w
      && s.pool.slots[me.slot].conn in s.pool.heap
      && (HasConn(me) ==> me.conn == s.pool.slots[me.slot].conn)
      && (Answered(me) ==> s.pool.heap[s.pool.slots[me.slot].conn].state.Finished())
      && (Sending(me) ==> Reusable(s.pool.heap[s.pool.slots[me.slot].conn]))
  }

  /** A slot in use has an owner. */
  ghost predicate HasOwner(s: State, i: nat)
    requires i < |s.pool.slots|
  {
    s.pool.slots[i].status == INUSE ==>
      && i in s.takers && s.takers[i] < |s.workers|
      && HasSlot(s.workers[s.takers[i]]) && s.workers[s.takers[i]].slot == i
  }

  ghost predicate ConnectionsOk(s: State) {
    && PoolOk(s.pool)
    && (forall w :: 0 <= w < |s.workers| ==> OwnsSlot(s, w))
    && (forall i :: 0 <= i < |s.pool.slots| ==> HasOwner(s, i))
  }

  /** No connection is held by two workers. */
  lemma ConnectionsArePrivate(s: State, v: nat, w: nat)
    requires ConnectionsOk(s) && v < |s.workers| && w < |s.workers|
    requires HasConn(s.workers[v]) && HasConn(s.workers[w]) && s.workers[v].conn == s.workers[w].conn
    ensures v == w
  {
    assert OwnsSlot(s, v) && OwnsSlot(s, w);
    assert SlotOk(s.pool, s.workers[v].slot) && SlotOk(s.pool, s.workers[w].slot);
  }

  /** `slotOfConnection` finds the slot from which the worker took its connection. */
  lemma SlotOfOwnConnection(s: State, w: nat)
    requires ConnectionsOk(s) && w < |s.workers| && HasConn(s.workers[w])
    ensures FirstWithConn(s.pool.slots, s.workers[w].conn) == Some(s.workers[w].slot)
  {
    assert OwnsSlot(s, w);
    SlotIsFound(s.pool, s.workers[w].slot);
  }

  /** What a response does to the connection object leaves the pool in order. */
  lemma ResponseKeepsPool(p: Pool, i: nat, h: Http)
    requires PoolOk(p) && i < |p.slots| && p.slots[i].status == INUSE
    requires p.slots[i].conn in p.heap
    ensures PoolOk(p.(heap := p.heap[p.slots[i].conn := h]))
    ensures forall j :: 0 <= j < |p.slots| && Occupied(p.slots[j]) && j != i ==> p.slots[j].conn != p.slots[i].conn
  {
    var p' := p.(heap := p.heap[p.slots[i].conn := h]);
    assert SlotOk(p, i);
    forall j | 0 <= j < |p.slots| ensures SlotOk(p', j) {
      assert SlotOk(p, j);
    }
    forall j | 0 <= j < |p.slots| && Occupied(p.slots[j]) && j != i ensures p.slots[j].conn != p.slots[i].conn {
      assert SlotOk(p, j);
    }
    forall c | c in p'.heap ensures InASlot(p', c) {
      assert InASlot(p, c);
    }
  }

  lemma ScanKeepsOthersSlot(s: State, w: nat, i: Input, s': State, v: nat)
    requires PoolOk(s.pool) && w < |s.workers| && s.workers[w].pc == PoolScan && Possible(s, i)
    requires v < |s.workers| && v != w && OwnsSlot(s, v)
    requires Scan(s, w, i) == Running(s')
    ensures OwnsSlot(s', v)
  {
    TakeKeepsPool(s.pool, i.address);
    if HasSlot(s.workers[v]) {
      assert s.workers[v].slot != Take(s.pool, i.address).value.1;
    }
  }

  lemma ScanKeepsConnections(s: State, w: nat, i: Input, s': State)
    requires ConnectionsOk(s) && w < |s.workers| && s.workers[w].pc == PoolScan && Possible(s, i)
    requires Scan(s, w, i) == Running(s')
    ensures ConnectionsOk(s')
  {
    TakeKeepsPool(s.pool, i.address);
    forall v | 0 <= v < |s'.workers| ensures OwnsSlot(s', v) {
      assert OwnsSlot(s, v);
      if v != w {
        ScanKeepsOthersSlot(s, w, i, s', v);
      }
    }
    forall j | 0 <= j < |s'.pool.slots| ensures HasOwner(s', j) {
      assert HasOwner(s, j);
    }
  }

  /** An exchange over the worker's own connection. */
  lemma ExchangeKeepsConnections(s: State, w: nat, h: Http, s': State)
    requires ConnectionsOk(s) && w < |s.workers| && HasConn(s.workers[w]) && OnlyWorker(s, s', w)
    requires s'.pool == s.pool.(heap := s.pool.heap[s.workers[w].conn := h]) && s'.takers == s.takers
    requires s'.workers[w].slot == s.workers[w].slot && s'.workers[w].conn == s.workers[w].conn
    requires HasSlot(s'.workers[w]) && !Sending(s'.workers[w]) && (Answered(s'.workers[w]) ==> h.state.Finished())
    ensures ConnectionsOk(s')
  {
    assert OwnsSlot(s, w);
    ResponseKeepsPool(s.pool, s.workers[w].slot, h);
    forall v | 0 <= v < |s'.workers| ensures OwnsSlot(s', v) {
      assert OwnsSlot(s, v);
    }
    forall j | 0 <= j < |s'.pool.slots| ensures HasOwner(s', j) {
      assert HasOwner(s, j);
    }
  }

  lemma PutKeepsConnections(s: State, w: nat, s': State)
    requires ConnectionsOk(s) && w < |s.workers| && s.workers[w].pc == Put
    requires PutBack(s, w) == Running(s')
    ensures ConnectionsOk(s')
  {
    assert OwnsSlot(s, w);
    var slot := s.workers[w].slot;
    GiveKeepsPool(s.pool, slot);
    assert SlotOk(s.pool, slot);
    forall v | 0 <= v < |s'.workers| ensures OwnsSlot(s', v) {
      assert OwnsSlot(s, v);
      if v != w && HasSlot(s.workers[v]) {
        assert SlotOk(s.pool, s.workers[v].slot);
        assert s.workers[v].slot != slot;
      }
    }
    forall j | 0 <= j < |s'.pool.slots| ensures HasOwner(s', j) {
      assert HasOwner(s, j);
    }
  }

  predicate TouchesPool(pc: Pc) {
    pc.PoolScan? || pc.Send? || pc.Receive? || pc.Put?
  }

  /** A step that leaves the pool alone leaves its worker's connection alone. */
  predicate SameConnection(before: Worker, after: Worker, slots: seq<Slot>) {
    && HasSlot(after) == HasSlot(before) && (HasSlot(before) ==> after.slot == before.slot)
    && (HasConn(after) ==> if HasConn(before) then after.conn == before.conn
                           else before.slot < |slots| && after.conn == slots[before.slot].conn)
    && (Answered(after) ==> Answered(before))
    && (Sending(after) && HasSlot(after) ==> Sending(before))
  }

  lemma LockingKeepsConnection(w: Worker, t: Tally, slots: seq<Slot>)
    requires Wants(w.pc).Some? || Gives(w.pc).Some?
    requires w.pc.PoolRead? ==> w.slot < |slots|
    ensures SameConnection(w, Then(w).(tally := t), slots)
  {
  }

  lemma OtherActsKeepPool(s: State, w: nat, i: Input, s': State)
    requires w < |s.workers| && !TouchesPool(s.workers[w].pc)
    requires Act(s, w, i) == Running(s')
    ensures s'.pool == s.pool && s'.takers == s.takers
  {
  }

  lemma OtherActsKeepSlot(s: State, w: nat, i: Input, s': State)
    requires w < |s.workers| && !TouchesPool(s.workers[w].pc)
    requires Act(s, w, i) == Running(s')
    ensures s'.workers[w].slot == s.workers[w].slot
    ensures if s.workers[w].pc.PoolRead? then s.workers[w].slot < |s.pool.slots|
              && s'.workers[w].conn == s.pool.slots[s.workers[w].slot].conn
            else s'.workers[w].conn == s.workers[w].conn
  {
  }

  lemma FlowKeepsConnection(before: Worker, after: Worker, slots: seq<Slot>)
    requires Flow(before, after) && !TouchesPool(before.pc) && after.slot == before.slot
    requires if before.pc.PoolRead? then before.slot < |slots| && after.conn == slots[before.slot].conn
             else after.conn == before.conn
    ensures SameConnection(before, after, slots)
  {
  }

  lemma OtherActsKeepConnection(s: State, w: nat, i: Input, s': State)
    requires w < |s.workers| && !TouchesPool(s.workers[w].pc) && s.workers[w].pc != Gone
    requires Wants(s.workers[w].pc).None? && Gives(s.workers[w].pc).None?
    requires Act(s, w, i) == Running(s')
    ensures SameConnection(s.workers[w], s'.workers[w], s.pool.slots)
  {
    ActFlows(s, w, i, s');
    OtherActsKeepSlot(s, w, i, s');
    FlowKeepsConnection(s.workers[w], s'.workers[w], s.pool.slots);
  }

  lemma OtherStepsKeepConnections(s: State, w: nat, i: Input, s': State)
    requires ConnectionsOk(s)
    requires Enabled(s, WorkerThread(w)) && WorkerStep(s, w, i) == Running(s')
    requires !TouchesPool(s.workers[w].pc)
    ensures ConnectionsOk(s')
  {
    if Wants(s.workers[w].pc).None? && Gives(s.workers[w].pc).None? {
      OtherActsKeepPool(s, w, i, s');
      OtherActsKeepConnection(s, w, i, s');
    } else {
      LockingKeepsConnection(s.workers[w], s'.workers[w].tally, s.pool.slots);
    }
    forall v | 0 <= v < |s'.workers| ensures OwnsSlot(s', v) {
      assert OwnsSlot(s, v);
    }
    forall j | 0 <= j < |s'.pool.slots| ensures HasOwner(s', j) {
      assert HasOwner(s, j);
    }
  }

  lemma WorkerKeepsConnections(s: State, w: nat, i: Input, s': State)
    requires ConnectionsOk(s) && Possible(s, i)
    requires Enabled(s, WorkerThread(w)) && WorkerStep(s, w, i) == Running(s')
    ensures ConnectionsOk(s')
  {
    match s.workers[w].pc
    case PoolScan => ScanKeepsConnections(s, w, i, s');
    case Send => ExchangeKeepsConnections(s, w, Http(INITIAL, -1), s');
    case Receive => ExchangeKeepsConnections(s, w, Http(i.state, i.code), s');
    case Put => PutKeepsConnections(s, w, s');
    case _ => OtherStepsKeepConnections(s, w, i, s');
  }

  lemma MainKeepsConnections(s: State, s': State)
    requires ConnectionsOk(s)
    requires Enabled(s, MainThread) && MainStep(s) == Running(s')
    ensures ConnectionsOk(s')
  {
    forall v | 0 <= v < |s'.workers| ensures OwnsSlot(s', v) {
      assert v < |s.workers| ==> OwnsSlot(s, v);
    }
    forall j | 0 <= j < |s'.pool.slots| ensures HasOwner(s', j) {
      assert HasOwner(s, j);
    }
  }

  // The number of workers

  ghost function Working(s: State): set<nat> {
    set w | 0 <= w < |s.workers| && Counted(s.workers[w])
  }

  /** `nthreads` lags behind by the worker that main has just created; what main has read of it only errs upwards. */
  ghost predicate CountOk(s: State) {
    && s.nthreads == |Working(s)| - (if s.main.Grow? || s.main.Growing? then 1 else 0)
    && (s.main.Unread? || s.main.Decide? ==> s.nthreads <= s.main.seen)
    && |Working(s)| <= MAXTHREADS
  }

  lemma WorkerKeepsCount(s: State, w: nat, i: Input, s': State)
    requires CountOk(s)
    requires Enabled(s, WorkerThread(w)) && WorkerStep(s, w, i) == Running(s')
    ensures CountOk(s')
  {
    CountStep(s, w, i, s');
    if s.workers[w].pc == Count {
      assert Working(s') == Working(s) - {w};
    } else {
      assert Working(s') == Working(s);
    }
  }

  lemma CountStep(s: State, w: nat, i: Input, s': State)
    requires Enabled(s, WorkerThread(w)) && WorkerStep(s, w, i) == Running(s')
    ensures if s.workers[w].pc == Count then s'.nthreads == s.nthreads - 1 && !Counted(s'.workers[w])
            else s'.nthreads == s.nthreads && Counted(s'.workers[w]) == Counted(s.workers[w])
  {
  }

  lemma MainKeepsCount(s: State, s': State)
    requires CountOk(s)
    requires Enabled(s, MainThread) && MainStep(s) == Running(s')
    ensures CountOk(s')
  {
    if s.main.Decide? && s.main.seen < MAXTHREADS {
      assert Working(s') == Working(s) + {|s.workers|};
    } else {
      assert Working(s') == Working(s);
    }
  }

  /** The owners of the first n slots, when all of these are in use, are n different workers. */
  lemma {:induction false} OwnersAreDistinct(s: State, n: nat) returns (owners: set<nat>)
    requires ConnectionsOk(s) && n <= |s.pool.slots|
    requires forall i :: 0 <= i < |s.pool.slots| ==> s.pool.slots[i].status == INUSE
    ensures |owners| == n
    ensures forall w :: w in owners ==> w < |s.workers| && HasSlot(s.workers[w]) && s.workers[w].slot < n
  {
    if n == 0 {
      owners := {};
    } else {
      var others := OwnersAreDistinct(s, n - 1);
      assert HasOwner(s, n - 1);
      owners := others + {s.takers[n - 1]};
    }
  }

  /** A worker that looks for a connection always finds a slot, because there are as many slots as workers. */
  lemma PoolNeverFull(s: State, w: nat, address: nat)
    requires ConnectionsOk(s) && CountOk(s) && w < |s.workers| && s.workers[w].pc == PoolScan
    ensures Take(s.pool, address).Some?
  {
    if Take(s.pool, address).None? {
      FullMeansInUse(s.pool, address);
      var owners := OwnersAreDistinct(s, NCONNECTIONS);
      assert w !in owners && owners + {w} <= Working(s);
      SubsetSize(owners + {w}, Working(s));
      assert false;
    }
  }

  // The points that are sent

  function LastTicket(sent: seq<Request>): nat {
    if sent == [] then 0 else sent[|sent| - 1].ticket
  }

  predicate OnPath(r: Request, b: Board) {
    r.x == Moved(r.ticket, b.width).at && r.y == Moved(r.ticket, b.height).at
  }

  ghost predicate PointOk(s: State, w: nat)
    requires w < |s.workers|
  {
    var me := s.workers[w];
    && (HoldsServer(me) && !me.pc.Move? ==> me.point.ticket == s.board.turns && s.board.turns > 0)
    && (me.point.ticket > 0 ==> OnPath(me.point, s.board))
  }

  predicate Follows(sent: seq<Request>, i: nat)
    requires i < |sent|
  {
    sent[i].ticket == LastTicket(sent[..i]) + 1 || (i > 0 && sent[i].ticket == LastTicket(sent[..i]))
  }

  /** The requests go out in the order of the path, each point at least once, and no point is skipped. */
  ghost predicate SentOk(s: State) {
    && (forall i :: 0 <= i < |s.sent| ==>
          Follows(s.sent, i) && OnPath(s.sent[i], s.board))
    && LastTicket(s.sent) <= s.board.turns
    && (LastTicket(s.sent) == s.board.turns
        || (LastTicket(s.sent) == s.board.turns - 1
            && s.locks.server.Held? && s.locks.server.holder < |s.workers|
            && Sending(s.workers[s.locks.server.holder])))
  }

  ghost predicate PathOk(s: State) {
    && s.board.across == Moved(s.board.turns, s.board.width) && s.board.down == Moved(s.board.turns, s.board.height)
    && (forall w :: 0 <= w < |s.workers| ==> PointOk(s, w))
    && SentOk(s)
  }

  lemma MoveKeepsPath(s: State, w: nat, s': State)
    requires LocksOk(s) && PathOk(s) && w < |s.workers| && s.workers[w].pc == Move
    requires s' == Advance(s, w)
    ensures PathOk(s')
  {
    assert LocksAgree(s, w);
    forall v | 0 <= v < |s'.workers| ensures PointOk(s', v) {
      assert PointOk(s, v) && LocksAgree(s, v);
    }
  }

  lemma SendKeepsPath(s: State, w: nat, i: Input, s': State)
    requires LocksOk(s) && PathOk(s) && w < |s.workers| && s.workers[w].pc == Send
    requires SendRequest(s, w, i) == Running(s')
    ensures PathOk(s')
  {
    assert LocksAgree(s, w) && PointOk(s, w);
    forall v | 0 <= v < |s'.workers| ensures PointOk(s', v) {
      assert PointOk(s, v);
    }
    var n := |s.sent|;
    assert s'.sent[..n] == s.sent;
    forall j | 0 <= j < |s'.sent|
      ensures Follows(s'.sent, j) && OnPath(s'.sent[j], s'.board)
    {
      if j < n {
        assert s'.sent[..j] == s.sent[..j];
        assert Follows(s.sent, j);
      }
    }
  }

  /** Outside Move and Send a worker keeps its point, and it stays between the two until it has sent. */
  predicate KeepsPoint(before: Worker, after: Worker) {
    && after.point == before.point
    && (HoldsServer(after) && !after.pc.Move? ==> HoldsServer(before) && !before.pc.Move?)
    && (Sending(before) ==> Sending(after))
  }

  lemma LockingKeepsPoint(w: Worker, t: Tally)
    requires Wants(w.pc).Some? || Gives(w.pc).Some?
    requires LocalOk(w)
    ensures KeepsPoint(w, Then(w).(tally := t))
  {
  }

  lemma FlowKeepsPoint(before: Worker, after: Worker)
    requires LocalOk(before) && Flow(before, after) && after.tally == before.tally && after.point == before.point
    requires !before.pc.Move? && !before.pc.Send?
    ensures KeepsPoint(before, after)
  {
    FlowKeepsHeld(before, after);
  }

  lemma ActKeepsPoint(s: State, w: nat, i: Input, s': State)
    requires w < |s.workers| && Act(s, w, i) == Running(s')
    requires !s.workers[w].pc.Move? && !s.workers[w].pc.Send?
    ensures s'.board == s.board && s'.sent == s.sent && s'.workers[w].point == s.workers[w].point
  {
  }

  /** Worker w has neither moved nor sent, and serverLock is still where its place says. */
  ghost predicate SameBoard(s: State, s': State, w: nat) {
    && w < |s.workers| && OnlyWorker(s, s', w)
    && s'.board == s.board && s'.sent == s.sent && KeepsPoint(s.workers[w], s'.workers[w])
    && LocksAgree(s', w) && MutexStep(s.locks.server, s'.locks.server, w)
  }

  lemma LockingKeepsBoard(s: State, w: nat, i: Input, s': State)
    requires w < |s.workers| && LocksAgree(s, w) && LocalOk(s.workers[w])
    requires Enabled(s, WorkerThread(w)) && WorkerStep(s, w, i) == Running(s')
    requires Wants(s.workers[w].pc).Some? || Gives(s.workers[w].pc).Some?
    ensures SameBoard(s, s', w)
  {
    LockingKeepsPoint(s.workers[w], s'.workers[w].tally);
    if Wants(s.workers[w].pc).Some? {
      AcquireKeepsOwn(s, w);
    } else {
      ReleaseKeepsOwn(s, w);
    }
  }

  lemma OtherActsKeepBoard(s: State, w: nat, i: Input, s': State)
    requires w < |s.workers| && LocksAgree(s, w) && LocalOk(s.workers[w])
    requires Act(s, w, i) == Running(s') && OnlyWorker(s, s', w)
    requires Wants(s.workers[w].pc).None? && Gives(s.workers[w].pc).None? && s.workers[w].pc != Gone
    requires !s.workers[w].pc.Move? && !s.workers[w].pc.Send?
    ensures SameBoard(s, s', w)
  {
    ActFlows(s, w, i, s');
    ActKeepsPoint(s, w, i, s');
    FlowKeepsPoint(s.workers[w], s'.workers[w]);
    FlowKeepsHeld(s.workers[w], s'.workers[w]);
  }

  lemma OtherStepsKeepPath(s: State, w: nat, i: Input, s': State)
    requires LocksOk(s) && PathOk(s)
    requires Enabled(s, WorkerThread(w)) && WorkerStep(s, w, i) == Running(s')
    requires !s.workers[w].pc.Move? && !s.workers[w].pc.Send?
    ensures PathOk(s')
  {
    assert LocksAgree(s, w) && LocalOk(s.workers[w]);
    if Wants(s.workers[w].pc).Some? || Gives(s.workers[w].pc).Some? {
      LockingKeepsBoard(s, w, i, s');
    } else {
      OtherActsKeepBoard(s, w, i, s');
    }
    SameBoardKeepsPath(s, w, s');
  }

  lemma SameBoardKeepsPath(s: State, w: nat, s': State)
    requires LocksOk(s) && PathOk(s) && SameBoard(s, s', w)
    ensures PathOk(s')
  {
    forall v | 0 <= v < |s'.workers| ensures PointOk(s', v) {
      assert PointOk(s, v);
    }
    if LastTicket(s.sent) != s.board.turns {
      var h := s.locks.server.holder;
      assert LocksAgree(s, h) && LocksAgree(s, w);
      assert Sending(s'.workers[h]);
    }
  }

  lemma WorkerKeepsPath(s: State, w: nat, i: Input, s': State)
    requires LocksOk(s) && PathOk(s)
    requires Enabled(s, WorkerThread(w)) && WorkerStep(s, w, i) == Running(s')
    ensures PathOk(s')
  {
    match s.workers[w].pc
    case Move => MoveKeepsPath(s, w, s');
    case Send => SendKeepsPath(s, w, i, s');
    case _ => OtherStepsKeepPath(s, w, i, s');
  }

  lemma MainKeepsPath(s: State, s': State)
    requires LocksOk(s) && PathOk(s)
    requires Enabled(s, MainThread) && MainStep(s) == Running(s')
    ensures PathOk(s')
  {
    forall v | 0 <= v < |s'.workers| ensures PointOk(s', v) {
      assert v < |s.workers| ==> PointOk(s, v);
    }
  }
}
