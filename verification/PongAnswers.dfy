/**
 * What a worker does with its answer: it waits if it is asked to, asks again if there is no status, and else reports.
 */
module PongAnswers {
  import opened Wrappers
  import opened PongPool
  import opened PongParser
  import opened Pong
  import opened PongLocks
  import opened PongShared
  import opened PongTheorems
  import opened PongNetwork

  // One look, and one judgement

  /** Nothing but worker w and its connection's state and status has changed. */
  predicate OnlyLooked(s: State, s': State, w: nat, h: Http)
    requires w < |s.workers|
  {
    |s'.workers| == |s.workers| &&
    s' == s.(workers := s.workers[w := s'.workers[w]], pool := s.pool.(heap := s.pool.heap[s.workers[w].conn := h]))
  }

  /** What one pass over all that has arrived for worker w gives. */
  function AnswerSoFar(x: Library, n: World, w: nat): Conn {
    Consume(x.syntax, Whole(WireOf(n, WorkerThread(w))), WireOf(n, WorkerThread(w)).eof)
  }

  /**
   * A look at the answer. An unfinished one is read on, and from the second look on the locks are given up first
   * unless it is in its headers. A finished one is judged at once, unless its body asks to wait: then the worker goes
   * to sleep, for which it must hold sendLock, and takes it again if it has given it up.
   */
  lemma LookTheorem(x: Library, n: World, w: nat, e: Event)
    requires Good(x, n) && StandsAt(n, WorkerThread(w), Pc.Receive)
    ensures WireStep(x, n, WorkerThread(w), e).Running?
    ensures var me, look := n.s.workers[w], AnswerSoFar(x, n, w);
      var n' := Next(x, n, WorkerThread(w), e);
      && OnlyLooked(n.s, n'.s, w, Http(look.state, look.code))
      && if look.state.Finished() then
           n'.s.workers[w] == me.(pc := if !x.waits(look.buf) then Pc.Judge
                                        else if me.needToRelock then Pc.Relock else Pc.Sleep)
         else
           n'.s.workers[w] == me.(reps := me.reps + 1,
                                  pc := if !me.needToRelock && me.reps > 0 && look.state != HEADERS then Pc.DelaySend
                                        else Pc.Fetch)
  {
    assert TurnOk(x, n, w);
    assert AnswerOk(x, n, n.s.workers[w].conn);
    LookIsOnePass(x, WireOf(n, WorkerThread(w)));
  }

  /** A request starts a new exchange: nothing has arrived, and the worker has not looked yet and holds its locks. */
  lemma SendTheorem(x: Library, n: World, w: nat, e: Event)
    requires Good(x, n) && StandsAt(n, WorkerThread(w), Pc.Send) && WireStep(x, n, WorkerThread(w), e).Running?
    ensures var me, n' := n.s.workers[w], Next(x, n, WorkerThread(w), e);
      && OnlyLooked(n.s, n'.s.(sent := n.s.sent), w, Http(INITIAL, -1)) && n'.s.sent == n.s.sent + [me.point]
      && n'.s.workers[w] == me.(pc := Pc.Receive, reps := 0, needToRelock := false)
      && n'.wires == n.wires[me.conn := Wire(SENT, false, [])]
  {
  }

  /** A read adds what it brings to what has arrived, and the worker looks again. */
  lemma FetchTheorem(x: Library, n: World, w: nat, e: Event)
    requires Good(x, n) && StandsAt(n, WorkerThread(w), Pc.Fetch) && WireStep(x, n, WorkerThread(w), e).Running?
    ensures var me, n' := n.s.workers[w], Next(x, n, WorkerThread(w), e);
      && n'.s == n.s.(workers := n.s.workers[w := me.(pc := Pc.Receive)])
      && me.conn in n.wires && me.conn in n'.wires
      && var before, after := n.wires[me.conn], n'.wires[me.conn];
      && after.stream == before.stream + (if e.arrival.Data? then e.arrival.bytes else [])
      && after.eof == e.arrival.Eof?
      && n'.wires == n.wires[me.conn := after]
  {
    assert TurnOk(x, n, w);
  }

  /** The status that has come for worker w, if any; see MissingStatus. */
  predicate HasStatus(x: Library, n: World, w: nat) {
    !NoStatus(x.syntax, WireOf(n, WorkerThread(w)).stream)
  }

  /**
   * The judgement. A status from 500 on ends the process. Without a status the worker backs off, to ask again; with one
   * it gives up what locks it still holds, and reports.
   */
  lemma JudgeTheorem(x: Library, n: World, w: nat, e: Event)
    requires Good(x, n) && StandsAt(n, WorkerThread(w), Pc.Judge)
    ensures var me, o := n.s.workers[w], WireStep(x, n, WorkerThread(w), e);
      if AnswerSoFar(x, n, w).code >= 500 then o == Exited
      else if me.needToRelock && !HasStatus(x, n, w) then o == Failed(LateError)
      else
        o == Running(n.s.(workers := n.s.workers[w :=
               me.(pc := if !HasStatus(x, n, w) then Pc.Backoff
                         else if me.needToRelock then Pc.Report else Pc.FreeSend)]))
  {
    AnswersFollowTheStream(x, n, w);
    assert OwnsSlot(n.s, w) && AnswerOk(x, n, n.s.workers[w].conn);
  }

  // When the process exits

  /** A system call fails where the program does not go on without it. */
  predicate CallFails(x: Library, n: World, t: Thread, e: Event) {
    e.broken &&
    (|| (StandsAt(n, t, Pc.PoolScan) && FirstWithStatus(n.s.pool.slots, VALID).None?)
     || (StandsAt(n, t, Pc.Send) && !ReusesEnded(n, t))
     || (StandsAt(n, t, Pc.Fetch) && !FillsBuffer(x, n, t)))
  }

  /** The server is overloaded, or answers with an error message. */
  predicate ServerRefuses(x: Library, n: World, t: Thread) {
    || (StandsAt(n, t, Pc.Judge) && AnswerSoFar(x, n, t.id).code >= 500)
    || (StandsAt(n, t, Pc.Report) && x.negative(AnswerSoFar(x, n, t.id).buf))
  }

  lemma ScanOutcome(s: State, w: nat, i: Input)
    requires w < |s.workers| && Take(s.pool, i.address).Some? && i.address !in s.pool.heap
    ensures Scan(s, w, i) == Exited <==> i.broken && FirstWithStatus(s.pool.slots, VALID).None?
  {
    var pool := Take(s.pool, i.address).value.0;
    if FirstWithStatus(s.pool.slots, VALID).None? {
      assert i.address in pool.heap;
    }
  }

  lemma ScanExits(x: Library, n: World, w: nat, e: Event)
    requires Inv(n.s) && Plausible(n, e) && StandsAt(n, WorkerThread(w), Pc.PoolScan)
    ensures WireStep(x, n, WorkerThread(w), e) == Exited <==> CallFails(x, n, WorkerThread(w), e)
  {
    var i := InputOf(x, n, WorkerThread(w), e);
    PoolNeverFull(n.s, w, e.address);
    ScanOutcome(n.s, w, i);
    assert WireStep(x, n, WorkerThread(w), e) == Scan(n.s, w, i);
  }

  lemma SendExits(x: Library, n: World, w: nat, e: Event)
    requires Good(x, n) && Plausible(n, e) && StandsAt(n, WorkerThread(w), Pc.Send)
    ensures WireStep(x, n, WorkerThread(w), e) == Exited <==> CallFails(x, n, WorkerThread(w), e)
  {
    FailuresOnTheWire(x, n, WorkerThread(w), e);
  }

  lemma FetchExits(x: Library, n: World, w: nat, e: Event)
    requires Good(x, n) && Plausible(n, e) && StandsAt(n, WorkerThread(w), Pc.Fetch)
    ensures WireStep(x, n, WorkerThread(w), e) == Exited <==> CallFails(x, n, WorkerThread(w), e)
  {
    FailuresOnTheWire(x, n, WorkerThread(w), e);
  }

  lemma ReportedAnswer(x: Library, n: World, w: nat)
    requires Good(x, n) && StandsAt(n, WorkerThread(w), Pc.Report)
    ensures WireOf(n, WorkerThread(w)).c == AnswerSoFar(x, n, w)
  {
    assert OwnsSlot(n.s, w) && AnswerOk(x, n, n.s.workers[w].conn);
  }

  lemma ReportStep(x: Library, n: World, w: nat, e: Event)
    requires StandsAt(n, WorkerThread(w), Pc.Report)
    ensures WireStep(x, n, WorkerThread(w), e) == Exited <==> x.negative(WireOf(n, WorkerThread(w)).c.buf)
  {
  }

  lemma ReportExits(x: Library, n: World, w: nat, e: Event)
    requires Good(x, n) && StandsAt(n, WorkerThread(w), Pc.Report)
    ensures WireStep(x, n, WorkerThread(w), e) == Exited <==> ServerRefuses(x, n, WorkerThread(w))
  {
    ReportedAnswer(x, n, w);
    ReportStep(x, n, w, e);
  }

  /** The process exits exactly when a system call fails or the server refuses. */
  lemma ExitsExactly(x: Library, n: World, t: Thread, e: Event)
    requires Good(x, n) && Enabled(n.s, t) && Plausible(n, e)
    ensures WireStep(x, n, t, e) == Exited <==> CallFails(x, n, t, e) || ServerRefuses(x, n, t)
  {
    match t
    case MainThread =>
    case WorkerThread(w) =>
      match n.s.workers[w].pc {
        case PoolScan => ScanExits(x, n, w, e);
        case Send => SendExits(x, n, w, e);
        case Fetch => FetchExits(x, n, w, e);
        case Judge => JudgeTheorem(x, n, w, e);
        case Report => ReportExits(x, n, w, e);
        case _ =>
      }
  }

  // Along a run

  lemma {:induction false} RunStaysGood(x: Library, n: World, run: seq<World>, hs: seq<Happening>, n': World, k: nat)
    requires Good(x, n) && Trace(x, n, run, hs, n') && k <= |hs|
    ensures Good(x, run[k])
    decreases k
  {
    if k > 0 {
      RunStaysGood(x, n, run, hs, n', k - 1);
      assert Link(x, run, hs, k - 1);
      WireStepIsGood(x, run[k - 1], hs[k - 1].thread, hs[k - 1].event);
    }
  }

  /** A worker stands still while others go. */
  lemma OthersStep(x: Library, n: World, t: Thread, e: Event, w: nat)
    requires Enabled(n.s, t) && WireStep(x, n, t, e).Running? && w < |n.s.workers| && t != WorkerThread(w)
    ensures w < |Next(x, n, t, e).s.workers| && Next(x, n, t, e).s.workers[w] == n.s.workers[w]
  {
  }

  lemma OnlySendSends(s: State, t: Thread, i: Input, s': State)
    requires Enabled(s, t) && Step(s, t, i) == Running(s') && s'.sent != s.sent
    ensures t.WorkerThread? && s.workers[t.id].pc == Pc.Send && s'.sent == s.sent + [s.workers[t.id].point]
  {
    if t.WorkerThread? && s.workers[t.id].pc != Pc.Send && s.workers[t.id].pc != Pc.Move {
      if Wants(s.workers[t.id].pc).None? && Gives(s.workers[t.id].pc).None? {
        ActKeepsPoint(s, t.id, i, s');
      }
    }
  }

  // An answer that asks to wait

  predicate Sleeping(n: World, w: nat) {
    w < |n.s.workers| && n.s.workers[w].pc == Pc.Sleep && n.s.locks.send == Held(w)
  }

  /** From the j-th to the k-th world of the run worker w sleeps with sendLock in its hands; then it goes on. */
  predicate SleepsFrom(run: seq<World>, w: nat, j: nat, k: nat) {
    && j <= k && k + 1 < |run| && (forall m :: j <= m <= k ==> Sleeping(run[m], w))
    && IsAwake(run[k + 1], w) && run[k + 1].s.sent == run[j].s.sent
  }

  predicate IsAwake(n: World, w: nat) { w < |n.s.workers| && n.s.workers[w].pc != Pc.Sleep }

  lemma SleepIsSilent(x: Library, n: World, t: Thread, e: Event, w: nat)
    requires Good(x, n) && Enabled(n.s, t) && WireStep(x, n, t, e).Running?
    requires w < |n.s.workers| && n.s.workers[w].pc == Pc.Sleep
    ensures n.s.locks.send == Held(w) && Next(x, n, t, e).s.sent == n.s.sent
  {
    assert LocksAgree(n.s, w);
    if Next(x, n, t, e).s.sent != n.s.sent {
      OnlySendSends(n.s, t, InputOf(x, n, t, e), Next(x, n, t, e).s);
      SilenceWhileWaiting(n.s, w, t.id);
    }
  }

  lemma SleepGoesOn(x: Library, n: World, run: seq<World>, hs: seq<Happening>, n': World, w: nat, j: nat)
    requires Good(x, n) && Trace(x, n, run, hs, n') && j < |hs| && w < |run[j].s.workers|
    requires run[j].s.workers[w].pc == Pc.Sleep
    ensures Sleeping(run[j], w) && w < |run[j + 1].s.workers| && run[j + 1].s.sent == run[j].s.sent
    ensures IsAwake(run[j + 1], w) || Sleeping(run[j + 1], w)
  {
    RunStaysGood(x, n, run, hs, n', j);
    RunStaysGood(x, n, run, hs, n', j + 1);
    assert Link(x, run, hs, j);
    SleepIsSilent(x, run[j], hs[j].thread, hs[j].event, w);
    if run[j + 1].s.workers[w].pc == Pc.Sleep {
      assert LocksAgree(run[j + 1].s, w);
    }
  }

  lemma SleepsLonger(run: seq<World>, w: nat, j: nat, j': nat, m: nat)
    requires j' == j + 1 < |run| && Sleeping(run[j], w) && SleepsFrom(run, w, j', m) && run[j'].s.sent == run[j].s.sent
    ensures SleepsFrom(run, w, j, m)
  {
  }

  lemma {:induction false} SleepEnds(x: Library, n: World, run: seq<World>, hs: seq<Happening>, n': World, w: nat,
                                     j: nat, k: nat) returns (m: nat)
    requires Good(x, n) && Trace(x, n, run, hs, n') && j < k <= |hs|
    requires w < |run[j].s.workers| && run[j].s.workers[w].pc == Pc.Sleep && IsAwake(run[k], w)
    ensures m < k && SleepsFrom(run, w, j, m)
    decreases k - j
  {
    SleepGoesOn(x, n, run, hs, n', w, j);
    if IsAwake(run[j + 1], w) {
      m := j;
    } else {
      m := SleepEnds(x, n, run, hs, n', w, j + 1, k);
      SleepsLonger(run, w, j, j + 1, m);
    }
  }

  lemma RelockGoesOn(x: Library, n: World, run: seq<World>, hs: seq<Happening>, n': World, w: nat, i: nat)
    requires Trace(x, n, run, hs, n') && i < |hs| && w < |run[i].s.workers| && run[i].s.workers[w].pc == Pc.Relock
    ensures w < |run[i + 1].s.workers|
    ensures run[i + 1].s.workers[w].pc == Pc.Relock || run[i + 1].s.workers[w].pc == Pc.Sleep
  {
    assert Link(x, run, hs, i);
    RelockStays(x, run[i], hs[i].thread, hs[i].event, w);
  }

  /** A worker that waits for sendLock in order to sleep gets to sleep before it does anything else. */
  lemma {:induction false} SleepComes(x: Library, n: World, run: seq<World>, hs: seq<Happening>, n': World, w: nat,
                                      i: nat, k: nat) returns (j: nat)
    requires Trace(x, n, run, hs, n') && i < k <= |hs| && w < |run[i].s.workers| && w < |run[k].s.workers|
    requires run[i].s.workers[w].pc == Pc.Relock || run[i].s.workers[w].pc == Pc.Sleep
    requires run[k].s.workers[w].pc == Pc.Judge
    ensures i <= j < k && w < |run[j].s.workers| && run[j].s.workers[w].pc == Pc.Sleep
    decreases k - i
  {
    if run[i].s.workers[w].pc == Pc.Sleep {
      j := i;
    } else {
      RelockGoesOn(x, n, run, hs, n', w, i);
      j := SleepComes(x, n, run, hs, n', w, i + 1, k);
    }
  }

  lemma RelockStays(x: Library, n: World, t: Thread, e: Event, w: nat)
    requires Enabled(n.s, t) && WireStep(x, n, t, e).Running? && w < |n.s.workers| && n.s.workers[w].pc == Pc.Relock
    ensures w < |Next(x, n, t, e).s.workers|
    ensures Next(x, n, t, e).s.workers[w].pc == Pc.Relock || Next(x, n, t, e).s.workers[w].pc == Pc.Sleep
  {
    if t != WorkerThread(w) {
      OthersStep(x, n, t, e, w);
    }
  }

  lemma WaitsAfterLook(x: Library, n: World, run: seq<World>, hs: seq<Happening>, n': World, w: nat, i: nat)
    requires Good(x, n) && Trace(x, n, run, hs, n') && i < |hs| && hs[i].thread == WorkerThread(w)
    requires StandsAt(run[i], WorkerThread(w), Pc.Receive)
    requires AnswerSoFar(x, run[i], w).state.Finished() && x.waits(AnswerSoFar(x, run[i], w).buf)
    ensures w < |run[i + 1].s.workers|
    ensures run[i + 1].s.workers[w].pc == Pc.Relock || run[i + 1].s.workers[w].pc == Pc.Sleep
  {
    RunStaysGood(x, n, run, hs, n', i);
    assert Link(x, run, hs, i);
    LookTheorem(x, run[i], w, hs[i].event);
  }

  /**
   * An answer that asks to wait is not judged before the worker has slept, with sendLock in its hands; and as long as
   * it sleeps nobody sends.
   */
  lemma WaitIsObeyed(x: Library, n: World, run: seq<World>, hs: seq<Happening>, n': World, w: nat, i: nat, k: nat)
    requires Good(x, n) && Trace(x, n, run, hs, n') && i < k <= |hs| && hs[i].thread == WorkerThread(w)
    requires StandsAt(run[i], WorkerThread(w), Pc.Receive) && StandsAt(run[k], WorkerThread(w), Pc.Judge)
    requires AnswerSoFar(x, run[i], w).state.Finished() && x.waits(AnswerSoFar(x, run[i], w).buf)
    ensures exists j, m :: i < j <= m < k && SleepsFrom(run, w, j, m)
  {
    WaitsAfterLook(x, n, run, hs, n', w, i);
    var j := SleepComes(x, n, run, hs, n', w, i + 1, k);
    var m := SleepEnds(x, n, run, hs, n', w, j, k);
  }

  // An answer without a status

  /** The worker is on its way to send its point. */
  predicate WillAsk(me: Worker) {
    match me.pc
    case Backoff | PoolLock | PoolScan | PoolUnlock | PoolRead | LockSend | Send => true
    case PutLock | Put | PutUnlock => me.retry
    case _ => false
  }

  lemma WillAskStays(s: State, w: nat, i: Input, s': State)
    requires Enabled(s, WorkerThread(w)) && WorkerStep(s, w, i) == Running(s') && WillAsk(s.workers[w])
    ensures if s.workers[w].pc == Pc.Send then s'.sent == s.sent + [s.workers[w].point]
            else WillAsk(s'.workers[w]) && s'.workers[w].point == s.workers[w].point
  {
  }

  /** Step j of the run is a request of worker w for this point. */
  predicate Asks(run: seq<World>, hs: seq<Happening>, w: nat, j: nat, point: Request) {
    && j < |hs| && j + 1 < |run| && hs[j].thread == WorkerThread(w) && StandsAt(run[j], WorkerThread(w), Pc.Send)
    && run[j + 1].s.sent == run[j].s.sent + [point]
  }

  lemma {:induction false} AsksBefore(x: Library, n: World, run: seq<World>, hs: seq<Happening>, n': World, w: nat,
                                      i: nat, k: nat, point: Request) returns (j: nat)
    requires Trace(x, n, run, hs, n') && i < k <= |hs| && w < |run[i].s.workers| && w < |run[k].s.workers|
    requires WillAsk(run[i].s.workers[w]) && run[i].s.workers[w].point == point && !WillAsk(run[k].s.workers[w])
    ensures i <= j < k && Asks(run, hs, w, j, point)
    decreases k - i
  {
    assert Link(x, run, hs, i);
    var t, e := hs[i].thread, hs[i].event;
    if t != WorkerThread(w) {
      OthersStep(x, run[i], t, e, w);
      j := AsksBefore(x, n, run, hs, n', w, i + 1, k, point);
    } else {
      WillAskStays(run[i].s, w, InputOf(x, run[i], t, e), run[i + 1].s);
      if run[i].s.workers[w].pc == Pc.Send {
        j := i;
      } else {
        j := AsksBefore(x, n, run, hs, n', w, i + 1, k, point);
      }
    }
  }

  lemma BacksOff(x: Library, n: World, run: seq<World>, hs: seq<Happening>, n': World, w: nat, i: nat)
    requires Good(x, n) && Trace(x, n, run, hs, n') && i < |hs| && hs[i].thread == WorkerThread(w)
    requires StandsAt(run[i], WorkerThread(w), Pc.Judge) && !HasStatus(x, run[i], w)
    ensures w < |run[i + 1].s.workers| && WillAsk(run[i + 1].s.workers[w])
    ensures run[i + 1].s.workers[w].point == run[i].s.workers[w].point
  {
    RunStaysGood(x, n, run, hs, n', i);
    assert Link(x, run, hs, i);
    JudgeTheorem(x, run[i], w, hs[i].event);
  }

  /**
   * An answer without a status, for which the worker still holds its locks, is not the last one to its point: before
   * the worker gets to read anything else, it asks for the same point again.
   */
  lemma AsksAgain(x: Library, n: World, run: seq<World>, hs: seq<Happening>, n': World, w: nat, i: nat, k: nat)
    requires Good(x, n) && Trace(x, n, run, hs, n') && i + 1 < k <= |hs| && hs[i].thread == WorkerThread(w)
    requires StandsAt(run[i], WorkerThread(w), Pc.Judge) && !HasStatus(x, run[i], w)
    requires w < |run[k].s.workers| && !WillAsk(run[k].s.workers[w])
    ensures exists j :: i < j < k && Asks(run, hs, w, j, run[i].s.workers[w].point)
  {
    BacksOff(x, n, run, hs, n', w, i);
    var j := AsksBefore(x, n, run, hs, n', w, i + 1, k, run[i].s.workers[w].point);
  }

  // A worker that is done

  /** The worker has reported its answer. */
  predicate HasReported(me: Worker) {
    match me.pc
    case CountLock | Count | CountUnlock | Gone => true
    case PutLock | Put | PutUnlock => !me.retry
    case _ => false
  }

  lemma ReportsFirst(s: State, w: nat, i: Input, s': State)
    requires Enabled(s, WorkerThread(w)) && WorkerStep(s, w, i) == Running(s')
    requires !HasReported(s.workers[w]) && HasReported(s'.workers[w])
    ensures s.workers[w].pc == Pc.Report && s'.workers[w].point == s.workers[w].point
  {
  }

  lemma ReportedKeepsPoint(s: State, w: nat, i: Input, s': State)
    requires Enabled(s, WorkerThread(w)) && WorkerStep(s, w, i) == Running(s') && HasReported(s.workers[w])
    ensures s'.workers[w].point == s.workers[w].point
  {
  }

  /** Between judging a good answer and reporting it the connection object keeps its status. */
  ghost predicate StatusKept(s: State, w: nat)
    requires w < |s.workers|
  {
    var me := s.workers[w];
    me.pc.FreeSend? || me.pc.FreeServer? || me.pc.Report? ==>
      me.conn in s.pool.heap && s.pool.heap[me.conn].code != -1
  }

  lemma OthersKeepStatus(s: State, v: nat, i: Input, s': State, w: nat)
    requires ConnectionsOk(s) && Possible(s, i) && Enabled(s, WorkerThread(v)) && WorkerStep(s, v, i) == Running(s')
    requires w < |s.workers| && v != w && StatusKept(s, w)
    ensures StatusKept(s', w)
  {
    if HasConn(s.workers[w]) {
      assert OwnsSlot(s, w) && OwnsSlot(s, v);
      if HasConn(s.workers[v]) && s.workers[v].conn == s.workers[w].conn {
        ConnectionsArePrivate(s, v, w);
      }
      OthersKeepObject(s, v, i, s', s.workers[w].conn);
    }
  }

  /** A step touches no allocated object but that of its worker's connection. */
  lemma OthersKeepObject(s: State, v: nat, i: Input, s': State, a: nat)
    requires Possible(s, i) && Enabled(s, WorkerThread(v)) && WorkerStep(s, v, i) == Running(s') && a in s.pool.heap
    requires HasConn(s.workers[v]) ==> s.workers[v].conn != a
    ensures a in s'.pool.heap && s'.pool.heap[a] == s.pool.heap[a]
  {
    var me := s.workers[v];
    if !TouchesPool(me.pc) && Wants(me.pc).None? && Gives(me.pc).None? {
      OtherActsKeepPool(s, v, i, s');
    }
  }

  predicate KnowsStatus(me: Worker) { me.pc.FreeSend? || me.pc.FreeServer? || me.pc.Report? }

  lemma JudgeFindsStatus(s: State, w: nat, s': State)
    requires w < |s.workers| && JudgeResponse(s, w) == Running(s') && KnowsStatus(s'.workers[w])
    ensures StatusKept(s', w)
  {
  }

  lemma UnlockingKeepsStatus(s: State, w: nat, s': State)
    requires w < |s.workers| && Gives(s.workers[w].pc).Some? && Release(s, w) == Running(s') && StatusKept(s, w)
    ensures StatusKept(s', w)
  {
  }

  lemma OwnStatusKept(s: State, w: nat, i: Input, s': State)
    requires Enabled(s, WorkerThread(w)) && WorkerStep(s, w, i) == Running(s') && StatusKept(s, w)
    ensures StatusKept(s', w)
  {
    var pc := s.workers[w].pc;
    if KnowsStatus(s'.workers[w]) && Wants(pc).None? {
      if Gives(pc).Some? {
        UnlockingKeepsStatus(s, w, s');
      } else {
        ActFlows(s, w, i, s');
        assert pc == Pc.Judge;
        JudgeFindsStatus(s, w, s');
      }
    }
  }

  lemma StatusStaysKept(x: Library, n: World, t: Thread, e: Event, w: nat)
    requires Good(x, n) && Enabled(n.s, t) && Plausible(n, e) && WireStep(x, n, t, e).Running?
    requires w < |n.s.workers| ==> StatusKept(n.s, w)
    ensures w < |Next(x, n, t, e).s.workers| ==> StatusKept(Next(x, n, t, e).s, w)
  {
    InputIsPossible(x, n, t, e);
    if t.WorkerThread? && w < |n.s.workers| {
      if t.id == w {
        OwnStatusKept(n.s, w, InputOf(x, n, t, e), Next(x, n, t, e).s);
      } else {
        OthersKeepStatus(n.s, t.id, InputOf(x, n, t, e), Next(x, n, t, e).s, w);
      }
    }
  }

  lemma {:induction false} StatusKeptAlong(x: Library, n: World, run: seq<World>, hs: seq<Happening>, n': World, w: nat,
                                           k: nat)
    requires Good(x, n) && n.s.workers == [] && Trace(x, n, run, hs, n') && k <= |hs| && w < |run[k].s.workers|
    ensures StatusKept(run[k].s, w)
    decreases k
  {
    if k > 0 {
      assert Link(x, run, hs, k - 1);
      RunStaysGood(x, n, run, hs, n', k - 1);
      if w < |run[k - 1].s.workers| {
        StatusKeptAlong(x, n, run, hs, n', w, k - 1);
      }
      StatusStaysKept(x, run[k - 1], hs[k - 1].thread, hs[k - 1].event, w);
    }
  }

  /** Step j of the run is worker w's report of an answer with a status to this point. */
  predicate Reports(x: Library, run: seq<World>, hs: seq<Happening>, w: nat, j: nat, point: Request) {
    && j < |hs| && j < |run| && hs[j].thread == WorkerThread(w) && StandsAt(run[j], WorkerThread(w), Pc.Report)
    && HasStatus(x, run[j], w) && run[j].s.workers[w].point == point
  }

  lemma ReportHasStatus(x: Library, n: World, w: nat)
    requires Good(x, n) && StandsAt(n, WorkerThread(w), Pc.Report) && StatusKept(n.s, w)
    ensures HasStatus(x, n, w)
  {
    AnswersFollowTheStream(x, n, w);
  }

  /** One step back from a worker that has reported. */
  lemma ReportedBefore(x: Library, n: World, run: seq<World>, hs: seq<Happening>, n': World, w: nat, i: nat)
    requires Trace(x, n, run, hs, n') && i < |hs| && w < |run[i + 1].s.workers|
    requires HasReported(run[i + 1].s.workers[w])
    ensures w < |run[i].s.workers| && run[i].s.workers[w].point == run[i + 1].s.workers[w].point
    ensures HasReported(run[i].s.workers[w])
         || (hs[i].thread == WorkerThread(w) && StandsAt(run[i], WorkerThread(w), Pc.Report))
  {
    assert Link(x, run, hs, i);
    var t, e := hs[i].thread, hs[i].event;
    if t != WorkerThread(w) {
      OthersStepBefore(x, run[i], t, e, w);
    } else if HasReported(run[i].s.workers[w]) {
      ReportedKeepsPoint(run[i].s, w, InputOf(x, run[i], t, e), run[i + 1].s);
    } else {
      ReportsFirst(run[i].s, w, InputOf(x, run[i], t, e), run[i + 1].s);
    }
  }

  /** A worker that is done has reported an answer with a status to the point that it took. */
  lemma {:induction false} DoneHasReported(x: Library, n: World, run: seq<World>, hs: seq<Happening>, n': World, w: nat,
                                           k: nat) returns (j: nat)
    requires Good(x, n) && n.s.workers == [] && Trace(x, n, run, hs, n') && k <= |hs|
    requires w < |run[k].s.workers| && HasReported(run[k].s.workers[w])
    ensures j < k && Reports(x, run, hs, w, j, run[k].s.workers[w].point)
    decreases k
  {
    assert k > 0;
    ReportedBefore(x, n, run, hs, n', w, k - 1);
    if HasReported(run[k - 1].s.workers[w]) {
      j := DoneHasReported(x, n, run, hs, n', w, k - 1);
    } else {
      j := k - 1;
      RunStaysGood(x, n, run, hs, n', j);
      StatusKeptAlong(x, n, run, hs, n', w, j);
      ReportHasStatus(x, run[j], w);
    }
  }

  lemma OthersStepBefore(x: Library, n: World, t: Thread, e: Event, w: nat)
    requires Enabled(n.s, t) && WireStep(x, n, t, e).Running? && t != WorkerThread(w)
    requires w < |Next(x, n, t, e).s.workers| && HasReported(Next(x, n, t, e).s.workers[w])
    ensures w < |n.s.workers| && n.s.workers[w] == Next(x, n, t, e).s.workers[w]
  {
  }

  /**
   * The promise of the loop in startConnection, over every run from the start of the program: a worker that is done has
   * reported an answer with a status to the point that it took, however often it had to ask.
   */
  lemma EveryPointIsAnswered(x: Library, width: int, height: int, run: seq<World>, hs: seq<Happening>, n': World,
                             w: nat)
    requires Trace(x, Boot(width, height), run, hs, n') && w < |n'.s.workers| && n'.s.workers[w].pc == Pc.Gone
    ensures exists j :: 0 <= j < |hs| && Reports(x, run, hs, w, j, n'.s.workers[w].point)
  {
    BootIsGood(x, width, height);
    var j := DoneHasReported(x, Boot(width, height), run, hs, n', w, |hs|);
  }
}
