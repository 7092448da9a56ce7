/** What holds in every state that pong61's threads can reach, and how the process can die. */
module PongTheorems {
  import opened PongPath
  import opened PongPool
  import opened Pong
  import opened PongLocks
  import opened PongShared

  ghost predicate Inv(s: State) {
    LocksOk(s) && ConnectionsOk(s) && CountOk(s) && PathOk(s)
  }

  ghost predicate GoodOutcome(r: Outcome) {
    match r
    case Running(s) => Inv(s)
    case Exited => true
    case Failed(why) => why == BadState || why == BufferFull || why == LateError
  }

  lemma InitialIsGood(width: int, height: int)
    ensures Inv(Initial(width, height))
  {
    var s := Initial(width, height);
    assert Working(s) == {};
    forall i | 0 <= i < |s.pool.slots| ensures SlotOk(s.pool, i) && HasOwner(s, i) {
    }
  }

  /**
   * Whatever thread goes next and whatever the network and the allocator do, the invariant survives, and only three of
   * the program's assertions can fail.
   */
  lemma StepIsGood(s: State, t: Thread, i: Input)
    requires Inv(s) && Enabled(s, t) && Possible(s, i)
    ensures GoodOutcome(Step(s, t, i))
  {
    match Step(s, t, i)
    case Running(s') =>
      match t {
        case MainThread =>
          MainKeepsLocks(s, s');
          MainKeepsConnections(s, s');
          MainKeepsCount(s, s');
          MainKeepsPath(s, s');
        case WorkerThread(w) =>
          WorkerKeepsLocks(s, w, i, s');
          WorkerKeepsConnections(s, w, i, s');
          WorkerKeepsCount(s, w, i, s');
          WorkerKeepsPath(s, w, i, s');
      }
    case Exited =>
    case Failed(_) => FailuresExactly(s, t, i);
  }

  /** A request over a connection that the server has closed after its last answer. */
  ghost predicate ReusesClosed(s: State, t: Thread) {
    t.WorkerThread? && t.id < |s.workers| && s.workers[t.id].pc == Send
    && s.workers[t.id].conn in s.pool.heap
    && var h := s.pool.heap[s.workers[t.id].conn];
    (h.state == CLOSED || h.state == BROKEN) && h.code == 200
  }

  /** More is to be read of an answer that leaves no room in the buffer. */
  ghost predicate Overfull(s: State, t: Thread, i: Input) {
    t.WorkerThread? && t.id < |s.workers| && s.workers[t.id].pc == Fetch && i.overlong
  }

  /** An answer that ends without a status after the locks were given up. */
  ghost predicate EndsLate(s: State, t: Thread) {
    t.WorkerThread? && t.id < |s.workers| && s.workers[t.id].pc == Judge && s.workers[t.id].needToRelock
    && s.workers[t.id].conn in s.pool.heap && s.pool.heap[s.workers[t.id].conn].code == -1
  }

  /**
   * The assertion of http_send_request fails exactly on a reused connection that was closed, the first one of
   * http_receive_response exactly when an unfinished answer has filled the buffer, its last one exactly on a late
   * answer without a status, and nothing else goes wrong: no mutex is unlocked by a stranger, the pool is never full,
   * and every connection is found in its slot. What a connection has received by then: PongNetwork.FailuresOnTheWire.
   */
  lemma FailuresExactly(s: State, t: Thread, i: Input)
    requires Inv(s) && Enabled(s, t) && Possible(s, i)
    ensures Step(s, t, i) == Failed(BadState) <==> ReusesClosed(s, t)
    ensures Step(s, t, i) == Failed(BufferFull) <==> Overfull(s, t, i)
    ensures Step(s, t, i) == Failed(LateError) <==> EndsLate(s, t)
    ensures Step(s, t, i).Failed? ==> Step(s, t, i).why in {BadState, BufferFull, LateError}
  {
    UnlocksOwnMutexes(s, t, i);
    if t.WorkerThread? {
      var me := s.workers[t.id];
      assert OwnsSlot(s, t.id);
      match me.pc {
        case PoolScan => PoolNeverFull(s, t.id, i.address);
        case Put => SlotOfOwnConnection(s, t.id);
        case _ =>
      }
    }
  }

  // Whole runs

  /** The next thread to go, and what it meets. */
  datatype Choice = Choice(thread: Thread, input: Input)

  ghost predicate Schedule(s: State, choices: seq<Choice>)
    decreases |choices|
  {
    choices == [] ||
    (Enabled(s, choices[0].thread) && Possible(s, choices[0].input) &&
     match Step(s, choices[0].thread, choices[0].input)
     case Running(s') => Schedule(s', choices[1..])
     case _ => |choices| == 1)
  }

  ghost function Play(s: State, choices: seq<Choice>): Outcome
    requires Schedule(s, choices)
    decreases |choices|
  {
    if choices == [] then Running(s) else
    match Step(s, choices[0].thread, choices[0].input)
    case Running(s') => Play(s', choices[1..])
    case r => r
  }

  lemma {:induction false} PlayIsGood(s: State, choices: seq<Choice>)
    requires Inv(s) && Schedule(s, choices)
    ensures GoodOutcome(Play(s, choices))
    decreases |choices|
  {
    if choices != [] {
      StepIsGood(s, choices[0].thread, choices[0].input);
      match Step(s, choices[0].thread, choices[0].input)
      case Running(s') => PlayIsGood(s', choices[1..]);
      case _ =>
    }
  }

  /**
   * The game: on a board of at least two by two cells, the n-th request of any run asks for the point of the reflecting
   * path that belongs to its ticket, which lies on the board, and a request's ticket is that of the request before it
   * or the next one.
   */
  lemma EveryRunPlaysThePath(width: int, height: int, choices: seq<Choice>, n: nat)
    requires width >= 2 && height >= 2
    requires Schedule(Initial(width, height), choices)
    requires Play(Initial(width, height), choices).Running?
    requires n < |Play(Initial(width, height), choices).s.sent|
    ensures var sent := Play(Initial(width, height), choices).s.sent;
      && sent[n].x == Wave(sent[n].ticket, width) && 0 <= sent[n].x < width
      && sent[n].y == Wave(sent[n].ticket, height) && 0 <= sent[n].y < height
      && (if n == 0 then sent[n].ticket == 1
          else sent[n - 1].ticket <= sent[n].ticket <= sent[n - 1].ticket + 1)
  {
    InitialIsGood(width, height);
    PlayIsGood(Initial(width, height), choices);
    PlayKeepsBoard(Initial(width, height), choices);
    var s := Play(Initial(width, height), choices).s;
    assert Follows(s.sent, n) && OnPath(s.sent[n], s.board);
    MovesTraceTheWave(s.sent[n].ticket, width);
    MovesTraceTheWave(s.sent[n].ticket, height);
  }

  lemma StepKeepsBoard(s: State, t: Thread, i: Input)
    requires Enabled(s, t) && Step(s, t, i).Running?
    ensures Step(s, t, i).s.board.width == s.board.width && Step(s, t, i).s.board.height == s.board.height
  {
  }

  lemma {:induction false} PlayKeepsBoard(s: State, choices: seq<Choice>)
    requires Schedule(s, choices) && Play(s, choices).Running?
    ensures Play(s, choices).s.board.width == s.board.width && Play(s, choices).s.board.height == s.board.height
    decreases |choices|
  {
    if choices != [] {
      StepKeepsBoard(s, choices[0].thread, choices[0].input);
      PlayKeepsBoard(Step(s, choices[0].thread, choices[0].input).s, choices[1..]);
    }
  }

  /** No point is skipped: every point up to the last one sent has been sent. */
  lemma {:induction false} NoPointSkipped(sent: seq<Request>, k: nat)
    requires forall i :: 0 <= i < |sent| ==> Follows(sent, i)
    requires 1 <= k <= LastTicket(sent)
    ensures exists i :: 0 <= i < |sent| && sent[i].ticket == k
  {
    var n := |sent| - 1;
    if sent[n].ticket != k {
      var shorter := sent[..n];
      assert Follows(sent, n);
      forall i | 0 <= i < n ensures Follows(shorter, i) {
        assert Follows(sent, i);
        assert shorter[..i] == sent[..i];
      }
      NoPointSkipped(shorter, k);
      var i :| 0 <= i < |shorter| && shorter[i].ticket == k;
      assert sent[i].ticket == k;
    }
  }

  /** Every ticket up to the last one sent was sent in every run. */
  lemma EveryPointIsSent(width: int, height: int, choices: seq<Choice>, k: nat)
    requires Schedule(Initial(width, height), choices)
    requires Play(Initial(width, height), choices).Running?
    requires 1 <= k <= LastTicket(Play(Initial(width, height), choices).s.sent)
    ensures var sent := Play(Initial(width, height), choices).s.sent;
      exists i :: 0 <= i < |sent| && sent[i].ticket == k
  {
    InitialIsGood(width, height);
    PlayIsGood(Initial(width, height), choices);
    NoPointSkipped(Play(Initial(width, height), choices).s.sent, k);
  }
}
