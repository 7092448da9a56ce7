/**
 * pong61's threads: the worker of pset5/pong61.c and the loop of `main` that spawns workers, as one machine in which
 * any thread may take the next step. The network, the allocator and the scheduler are inputs of a step.
 */
module Pong {
  import opened Wrappers
  import opened PongPath
  import opened PongPool

  const MAXTHREADS: nat := 30

  datatype Mutex = Free | Held(holder: nat) | HeldByMain

  /** Where a worker stands: the name says what it does next. */
  datatype Pc =
    | Start                                                    // lock serverLock
    | Move                                                     // advance the shared point
    | PoolLock | PoolScan | PoolUnlock | PoolRead              // getConn
    | LockSend | Send
    | Receive | DelaySend | DelayServer | Fetch                // the loop of http_receive_response
    | Relock | Sleep | Wake                                    // the "+wait" answer
    | Judge | FreeSend | FreeServer                            // the end of http_receive_response
    | Backoff                                                  // an answer without a status: give sendLock back
    | Report
    | PutLock | Put | PutUnlock                                // releaseConn
    | CountLock | Count | CountUnlock
    | Gone

  datatype Lock = ServerLock | SendLock | ConnLock | ThreadLock

  datatype Locks = Locks(server: Mutex, send: Mutex, connection: Mutex, thread: Mutex) {
    function Get(l: Lock): Mutex {
      match l
      case ServerLock => server
      case SendLock => send
      case ConnLock => connection
      case ThreadLock => thread
    }

    function Set(l: Lock, m: Mutex): Locks {
      match l
      case ServerLock => this.(server := m)
      case SendLock => this.(send := m)
      case ConnLock => this.(connection := m)
      case ThreadLock => this.(thread := m)
    }
  }

  /** How often a worker has locked and unlocked the two mutexes that it may unlock early. */
  datatype Tally = Tally(serverTaken: nat, serverGiven: nat, sendTaken: nat, sendGiven: nat) {
    function Take(l: Lock): Tally {
      match l
      case ServerLock => this.(serverTaken := serverTaken + 1)
      case SendLock => this.(sendTaken := sendTaken + 1)
      case _ => this
    }

    function Give(l: Lock): Tally {
      match l
      case ServerLock => this.(serverGiven := serverGiven + 1)
      case SendLock => this.(sendGiven := sendGiven + 1)
      case _ => this
    }
  }

  /** A point of the path, numbered from 1 in the order in which the workers take them; number 0 is none. */
  datatype Request = Request(ticket: nat, x: int, y: int)

  /** A worker's locals; `retry` says from which call site it runs releaseConn. */
  datatype Worker = Worker(pc: Pc, slot: nat, conn: nat, point: Request, reps: nat, needToRelock: bool, retry: bool,
                           tally: Tally)

  datatype MainPc = Look | Read | Unread(seen: int) | Decide(seen: int) | Grow | Growing | Grown

  /** The moving point; `turns` counts its moves. */
  datatype Board = Board(width: int, height: int, across: Axis, down: Axis, turns: nat)

  /**
   * The shared state. `sent` lists the requests in the order in which they went out and `takers` says who last took
   * each slot; the program does not store these two, nor the counts in Board and Tally.
   */
  datatype State = State(locks: Locks, main: MainPc, nthreads: int, workers: seq<Worker>, board: Board, pool: Pool,
                         takers: map<nat, nat>, sent: seq<Request>)

  /**
   * What the outside world and the parser contribute to a step: the address of a new connection, what a look at the
   * answer makes of it, whether it asks to wait, fills its buffer or is an error message, and a failing system call.
   */
  datatype Input = Input(address: nat, state: HttpState, code: int, wait: bool, overlong: bool, negative: bool,
                         broken: bool)

  /** Why the process may die in an assertion, or misbehave. */
  datatype Failure = NotHeld | PoolFull | NoSlot | BadState | BufferFull | LateError

  datatype Outcome = Running(s: State) | Exited | Failed(why: Failure)

  datatype Thread = MainThread | WorkerThread(id: nat)

  const FRESH: Worker := Worker(Start, 0, 0, Request(0, 0, 0), 0, false, false, Tally(0, 0, 0, 0))

  function Initial(width: int, height: int): State {
    State(Locks(Free, Free, Free, Free), Look, 0, [], Board(width, height, Axis(0, 1), Axis(0, 1), 0),
          Pool(seq(NCONNECTIONS, _ => Slot(0, UNINIT)), map[]), map[], [])
  }

  // Where a worker locks and unlocks

  /** The mutex that a worker locks next. */
  function Wants(pc: Pc): Option<Lock> {
    match pc
    case Start => Some(ServerLock)
    case LockSend | Relock => Some(SendLock)
    case PoolLock | PutLock => Some(ConnLock)
    case CountLock => Some(ThreadLock)
    case _ => None
  }

  /** The mutex that a worker unlocks next. */
  function Gives(pc: Pc): Option<Lock> {
    match pc
    case DelayServer | FreeServer => Some(ServerLock)
    case DelaySend | Wake | FreeSend | Backoff => Some(SendLock)
    case PoolUnlock | PutUnlock => Some(ConnLock)
    case CountUnlock => Some(ThreadLock)
    case _ => None
  }

  /** Where it goes on after locking or unlocking, with the flags set there. */
  function Then(w: Worker): Worker {
    match w.pc
    case Start => w.(pc := Move)
    case PoolLock => w.(pc := PoolScan)
    case PoolUnlock => w.(pc := PoolRead)
    case LockSend => w.(pc := Send)
    case DelaySend => w.(pc := DelayServer)
    case DelayServer => w.(pc := Fetch, needToRelock := true)
    case Relock => w.(pc := Sleep)
    case Wake => w.(pc := Judge)
    case FreeSend => w.(pc := FreeServer)
    case FreeServer => w.(pc := Report)
    case Backoff => w.(pc := PutLock, retry := true)
    case PutLock => w.(pc := Put)
    case PutUnlock => w.(pc := if w.retry then PoolLock else CountLock)
    case CountLock => w.(pc := Count)
    case CountUnlock => w.(pc := Gone)
    case _ => w
  }

  predicate Enabled(s: State, t: Thread) {
    match t
    case MainThread => s.main.Look? || s.main.Grow? ==> s.locks.thread.Free?
    case WorkerThread(w) =>
      && w < |s.workers|
      && s.workers[w].pc != Gone
      && var wants := Wants(s.workers[w].pc);
      wants.Some? ==> s.locks.Get(wants.value).Free?
  }

  predicate Possible(s: State, i: Input) {
    && i.address != 0 && i.address !in s.pool.heap
    && i.state != REQUEST
  }

  // The steps

  /** Nothing but the worker w and the mutexes, the pool and the counters has changed. */
  predicate OnlyWorker(s: State, s': State, w: nat)
    requires w < |s.workers|
  {
    |s'.workers| == |s.workers| && s'.workers == s.workers[w := s'.workers[w]] && s'.main == s.main
  }

  function With(s: State, w: nat, worker: Worker): State
    requires w < |s.workers|
  {
    s.(workers := s.workers[w := worker])
  }

  function At(s: State, w: nat, pc: Pc): State
    requires w < |s.workers|
  {
    With(s, w, s.workers[w].(pc := pc))
  }

  function Acquire(s: State, w: nat): (s': State)
    requires w < |s.workers| && Wants(s.workers[w].pc).Some?
    ensures OnlyWorker(s, s', w)
  {
    var me, l := s.workers[w], Wants(s.workers[w].pc).value;
    With(s.(locks := s.locks.Set(l, Held(w))), w, Then(me).(tally := me.tally.Take(l)))
  }

  /** Unlocking a mutex that another thread holds is an error. */
  function Release(s: State, w: nat): (r: Outcome)
    requires w < |s.workers| && Gives(s.workers[w].pc).Some?
    ensures r.Running? ==> OnlyWorker(s, r.s, w)
  {
    var me, l := s.workers[w], Gives(s.workers[w].pc).value;
    if s.locks.Get(l) != Held(w) then Failed(NotHeld) else
    Running(With(s.(locks := s.locks.Set(l, Free)), w, Then(me).(tally := me.tally.Give(l))))
  }

  /** The next point of the path becomes the worker's. */
  function Advance(s: State, w: nat): (s': State)
    requires w < |s.workers|
    ensures OnlyWorker(s, s', w)
  {
    var across, down := Bounce(s.board.across, s.board.width), Bounce(s.board.down, s.board.height);
    var turns := s.board.turns + 1;
    With(s.(board := s.board.(across := across, down := down, turns := turns)), w,
         s.workers[w].(pc := PoolLock, point := Request(turns, across.at, down.at)))
  }

  function Scan(s: State, w: nat, i: Input): (r: Outcome)
    requires w < |s.workers|
    ensures r.Running? ==> OnlyWorker(s, r.s, w)
  {
    match Take(s.pool, i.address)
    case None => Failed(PoolFull)
    case Some((pool, slot)) =>
      if i.broken && pool.heap != s.pool.heap then Exited else
      Running(With(s.(pool := pool, takers := s.takers[slot := w]), w,
                   s.workers[w].(pc := PoolUnlock, slot := slot)))
  }

  function SendRequest(s: State, w: nat, i: Input): (r: Outcome)
    requires w < |s.workers|
    ensures r.Running? ==> OnlyWorker(s, r.s, w)
  {
    var me := s.workers[w];
    if me.conn !in s.pool.heap then Failed(NoSlot) else
    if !s.pool.heap[me.conn].state.REQUEST? && !s.pool.heap[me.conn].state.DONE? then Failed(BadState) else
    if i.broken then Exited else
    Running(With(s.(pool := s.pool.(heap := s.pool.heap[me.conn := Http(INITIAL, -1)]),
                    sent := s.sent + [me.point]), w,
                 me.(pc := Receive, reps := 0, needToRelock := false)))
  }

  /** A look at what has arrived so far; if the answer is not complete, the locks are given up once it takes long. */
  function LookAt(s: State, w: nat, i: Input): (s': State)
    requires w < |s.workers|
    ensures OnlyWorker(s, s', w)
  {
    var me := s.workers[w];
    var s' := s.(pool := s.pool.(heap := s.pool.heap[me.conn := Http(i.state, i.code)]));
    if !i.state.Finished() then
      var delayed := !me.needToRelock && me.reps + 1 > 1 && i.state != HEADERS;
      With(s', w, me.(pc := if delayed then DelaySend else Fetch, reps := me.reps + 1))
    else if i.wait then
      With(s', w, me.(pc := if me.needToRelock then Relock else Sleep))
    else
      With(s', w, me.(pc := Judge))
  }

  /** The rest of the loop's turn: more is read, if the buffer has room for it. */
  function FetchMore(s: State, w: nat, i: Input): (r: Outcome)
    requires w < |s.workers|
    ensures r.Running? ==> OnlyWorker(s, r.s, w)
  {
    if i.overlong then Failed(BufferFull) else
    if i.broken then Exited else
    Running(At(s, w, Receive))
  }

  /** The last part of http_receive_response, and what its caller does with the status. */
  function JudgeResponse(s: State, w: nat): (r: Outcome)
    requires w < |s.workers|
    ensures r.Running? ==> OnlyWorker(s, r.s, w)
  {
    var me := s.workers[w];
    if me.conn !in s.pool.heap then Failed(NoSlot) else
    var code := s.pool.heap[me.conn].code;
    if code >= 500 then Exited else
    if !me.needToRelock && code != -1 then Running(At(s, w, FreeSend)) else
    if me.needToRelock && code == -1 then Failed(LateError) else
    Running(At(s, w, if code == -1 then Backoff else Report))
  }

  function PutBack(s: State, w: nat): (r: Outcome)
    requires w < |s.workers|
    ensures r.Running? ==> OnlyWorker(s, r.s, w)
  {
    var me := s.workers[w];
    if me.conn !in s.pool.heap then Failed(NoSlot) else
    match Give(s.pool, me.conn)
    case None => Failed(NoSlot)
    case Some(pool) => Running(At(s.(pool := pool), w, PutUnlock))
  }

  /** The steps that neither lock nor unlock. */
  function Act(s: State, w: nat, i: Input): (r: Outcome)
    requires w < |s.workers|
    ensures r.Running? ==> OnlyWorker(s, r.s, w)
  {
    var me := s.workers[w];
    match me.pc
    case Move => Running(Advance(s, w))
    case PoolScan => Scan(s, w, i)
    case PoolRead =>
      if me.slot >= |s.pool.slots| then Failed(NoSlot) else
      Running(With(s, w, me.(pc := LockSend, conn := s.pool.slots[me.slot].conn)))
    case Send => SendRequest(s, w, i)
    case Receive => Running(LookAt(s, w, i))
    case Fetch => FetchMore(s, w, i)
    case Sleep => Running(At(s, w, if me.needToRelock then Wake else Judge))
    case Judge => JudgeResponse(s, w)
    case Report => if i.negative then Exited else Running(With(s, w, me.(pc := PutLock, retry := false)))
    case Put => PutBack(s, w)
    case Count => Running(At(s.(nthreads := s.nthreads - 1), w, CountUnlock))
    case _ => Running(s)
  }

  function WorkerStep(s: State, w: nat, i: Input): (r: Outcome)
    requires Enabled(s, WorkerThread(w))
    ensures r.Running? ==> OnlyWorker(s, r.s, w)
  {
    if Wants(s.workers[w].pc).Some? then Running(Acquire(s, w)) else
    if Gives(s.workers[w].pc).Some? then Release(s, w) else
    Act(s, w, i)
  }

  function MainUnlocks(s: State, next: MainPc): Outcome {
    if s.locks.thread.HeldByMain? then Running(s.(locks := s.locks.Set(ThreadLock, Free), main := next))
    else Failed(NotHeld)
  }

  function MainStep(s: State): Outcome
    requires Enabled(s, MainThread)
  {
    match s.main
    case Look => Running(s.(locks := s.locks.Set(ThreadLock, HeldByMain), main := Read))
    case Read => Running(s.(main := Unread(s.nthreads)))
    case Unread(n) => MainUnlocks(s, Decide(n))
    case Decide(n) =>
      if n < MAXTHREADS then Running(s.(workers := s.workers + [FRESH], main := Grow)) else
      Running(s.(main := Look))
    case Grow => Running(s.(locks := s.locks.Set(ThreadLock, HeldByMain), main := Growing))
    case Growing => Running(s.(nthreads := s.nthreads + 1, main := Grown))
    case Grown => MainUnlocks(s, Look)
  }

  function Step(s: State, t: Thread, i: Input): Outcome
    requires Enabled(s, t)
  {
    match t
    case MainThread => MainStep(s)
    case WorkerThread(w) => WorkerStep(s, w, i)
  }

  // What a worker holds, by where it stands

  predicate HoldsServer(w: Worker) {
    match w.pc
    case Move | PoolLock | PoolScan | PoolUnlock | PoolRead | LockSend | Send | DelaySend | DelayServer
       | FreeSend | FreeServer | Backoff => true
    case Receive | Fetch | Sleep | Judge => !w.needToRelock
    case PutLock | Put | PutUnlock => w.retry
    case _ => false
  }

  predicate HoldsSend(w: Worker) {
    match w.pc
    case Send | DelaySend | Sleep | Wake | FreeSend | Backoff => true
    case Receive | Fetch | Judge => !w.needToRelock
    case _ => false
  }

  predicate HoldsConn(w: Worker) {
    w.pc.PoolScan? || w.pc.PoolUnlock? || w.pc.Put? || w.pc.PutUnlock?
  }

  predicate HoldsThread(w: Worker) {
    w.pc.Count? || w.pc.CountUnlock?
  }

  /** A slot of the pool is the worker's own. */
  predicate HasSlot(w: Worker) {
    match w.pc
    case Start | Move | PoolLock | PoolScan | PutUnlock | CountLock | Count | CountUnlock | Gone => false
    case _ => true
  }

  /** The worker has read its connection out of the slot. */
  predicate HasConn(w: Worker) {
    HasSlot(w) && !w.pc.PoolUnlock? && !w.pc.PoolRead?
  }

  /** The response is complete. */
  predicate Answered(w: Worker) {
    match w.pc
    case Relock | Sleep | Wake | Judge | FreeSend | FreeServer | Backoff | Report | PutLock | Put => true
    case _ => false
  }

  /** Not yet subtracted from `nthreads`. */
  predicate Counted(w: Worker) {
    w.pc != CountUnlock && w.pc != Gone
  }

  /** Between taking a point and sending it for the first time. */
  predicate Sending(w: Worker) {
    match w.pc
    case PoolLock | PoolScan | PoolUnlock | PoolRead | LockSend | Send => true
    case _ => false
  }
}
