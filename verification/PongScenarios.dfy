/**
 * Runs of pong61, from the start of the program and over what a server sends, that end in each of the three assertions
 * that can fail. Two workers are there; the first one talks over the connection at address 1.
 */
module PongScenarios {
  import opened Wrappers
  import opened PongPool
  import opened PongParser
  import opened Pong
  import opened PongNetwork

  lemma Goes(x: Library, n0: World, n: World, t: Thread, e: Event, n': World)
    requires CanReach(x, n0, n) && Enabled(n.s, t) && Plausible(n, e)
    requires WireStep(x, n, t, e).Running? && n' == Next(x, n, t, e)
    ensures CanReach(x, n0, n')
  {
    var run, hs :| Trace(x, n0, run, hs, n);
    var run', hs' := run + [n'], hs + [Happening(t, e)];
    forall k | 0 <= k < |hs'|
      ensures Link(x, run', hs', k)
    {
      assert k < |hs| ==> Link(x, run, hs, k);
    }
    assert Trace(x, n0, run', hs', n');
  }

  /** Nothing fails, and a new connection would lie at address a. */
  function Calm(a: nat): Event { Event(a, Nothing, false) }

  // The program starts

  /** Main creates one more worker. */
  lemma Spawns(x: Library, n0: World, n: World) returns (n': World)
    requires CanReach(x, n0, n) && n.s.pool.heap == map[]
    requires n.s.locks.thread.Free? && n.s.main.Look? && n.s.nthreads < MAXTHREADS
    ensures CanReach(x, n0, n') && n'.s.main.Grow? && n'.s.workers == n.s.workers + [FRESH]
    ensures n'.s.locks == n.s.locks && n'.s.pool == n.s.pool && n'.s.nthreads == n.s.nthreads
  {
    var n1 := Next(x, n, MainThread, Calm(1));
    Goes(x, n0, n, MainThread, Calm(1), n1);
    var n2 := Next(x, n1, MainThread, Calm(1));
    Goes(x, n0, n1, MainThread, Calm(1), n2);
    var n3 := Next(x, n2, MainThread, Calm(1));
    Goes(x, n0, n2, MainThread, Calm(1), n3);
    n' := Next(x, n3, MainThread, Calm(1));
    Goes(x, n0, n3, MainThread, Calm(1), n');
  }

  lemma CountsIn(x: Library, n0: World, n: World) returns (n': World)
    requires CanReach(x, n0, n) && n.s.pool.heap == map[]
    requires n.s.locks.thread.Free? && n.s.main.Grow?
    ensures CanReach(x, n0, n') && n'.s.main.Look? && n'.s.workers == n.s.workers
    ensures n'.s.locks == n.s.locks && n'.s.pool == n.s.pool && n'.s.nthreads == n.s.nthreads + 1
  {
    var n1 := Next(x, n, MainThread, Calm(1));
    Goes(x, n0, n, MainThread, Calm(1), n1);
    var n2 := Next(x, n1, MainThread, Calm(1));
    Goes(x, n0, n1, MainThread, Calm(1), n2);
    n' := Next(x, n2, MainThread, Calm(1));
    Goes(x, n0, n2, MainThread, Calm(1), n');
  }

  /** Two workers are there, and none has done anything yet. */
  lemma TwoStart(x: Library, width: int, height: int) returns (n: World)
    ensures CanReach(x, Boot(width, height), n) && n.s.workers == [FRESH, FRESH]
    ensures n.s.locks == Locks(Free, Free, Free, Free) && n.s.pool == Initial(0, 0).pool
  {
    var n0 := Boot(width, height);
    assert Trace(x, n0, [n0], [], n0);
    var n1 := Spawns(x, n0, n0);
    var n2 := CountsIn(x, n0, n1);
    n := Spawns(x, n0, n2);
  }

  // A worker gets ready to send

  /** Nothing but worker w, the pool and what concerns the path has changed. */
  predicate OnlyWorks(n: World, n': World, w: nat)
    requires w < |n.s.workers|
  {
    OnlyWorker(n.s, n'.s, w) && n'.s.locks.thread == n.s.locks.thread && n'.wires == n.wires
  }

  /** Worker w takes a point and gets to the pool. */
  lemma ToPool(x: Library, n0: World, n: World, w: nat, e: Event) returns (n': World)
    requires CanReach(x, n0, n) && w < |n.s.workers| && Plausible(n, e) && n.s.workers[w].pc == Start
    requires n.s.locks.server.Free? && n.s.locks.connection.Free?
    ensures CanReach(x, n0, n') && OnlyWorks(n, n', w) && n'.s.workers[w].pc == PoolScan && n'.s.pool == n.s.pool
    ensures n'.s.locks.server == n'.s.locks.connection == Held(w) && n'.s.locks.send == n.s.locks.send
  {
    var t := WorkerThread(w);
    var n1 := Next(x, n, t, e);
    Goes(x, n0, n, t, e, n1);
    var n2 := Next(x, n1, t, e);
    Goes(x, n0, n1, t, e, n2);
    n' := Next(x, n2, t, e);
    Goes(x, n0, n2, t, e, n');
  }

  lemma TakesSlot(x: Library, n0: World, n: World, w: nat, e: Event, later: Event, pool: Pool, slot: nat)
    returns (n': World)
    requires CanReach(x, n0, n) && w < |n.s.workers| && Plausible(n, e) && !e.broken
    requires n.s.workers[w].pc == PoolScan && n.s.locks.connection == Held(w)
    requires Take(n.s.pool, e.address) == Some((pool, slot))
    requires Plausible(n.(s := n.s.(pool := pool)), later)
    ensures CanReach(x, n0, n') && OnlyWorks(n, n', w) && n'.s.workers[w].pc == PoolRead && n'.s.pool == pool
    ensures n'.s.workers[w].slot == slot
    ensures n'.s.locks == n.s.locks.(connection := Free)
  {
    var t := WorkerThread(w);
    var n1 := Next(x, n, t, e);
    Goes(x, n0, n, t, e, n1);
    n' := Next(x, n1, t, later);
    Goes(x, n0, n1, t, later, n');
  }

  lemma LocksSend(x: Library, n0: World, n: World, w: nat, e: Event, slot: nat) returns (n': World)
    requires CanReach(x, n0, n) && w < |n.s.workers| && Plausible(n, e) && n.s.workers[w].pc == PoolRead
    requires n.s.locks.send.Free? && n.s.workers[w].slot == slot && slot < |n.s.pool.slots|
    ensures CanReach(x, n0, n') && OnlyWorks(n, n', w) && n'.s.workers[w].pc == Pc.Send && n'.s.pool == n.s.pool
    ensures n'.s.workers[w].conn == n.s.pool.slots[slot].conn
    ensures n'.s.locks == n.s.locks.(send := Held(w))
  {
    var t := WorkerThread(w);
    var n1 := Next(x, n, t, e);
    Goes(x, n0, n, t, e, n1);
    n' := Next(x, n1, t, e);
    Goes(x, n0, n1, t, e, n');
  }

  /** Worker w starts, gets a connection, and comes to the point of sending its request. */
  lemma ToSend(x: Library, n0: World, n: World, w: nat, e: Event, later: Event, pool: Pool, slot: nat)
    returns (n': World)
    requires CanReach(x, n0, n) && w < |n.s.workers| && Plausible(n, e) && !e.broken && n.s.workers[w].pc == Start
    requires n.s.locks.server.Free? && n.s.locks.connection.Free? && n.s.locks.send.Free?
    requires Take(n.s.pool, e.address) == Some((pool, slot)) && slot < |pool.slots|
    requires Plausible(n.(s := n.s.(pool := pool)), later)
    ensures CanReach(x, n0, n') && OnlyWorks(n, n', w) && n'.s.workers[w].pc == Pc.Send && n'.s.pool == pool
    ensures n'.s.workers[w].conn == pool.slots[slot].conn
    ensures n'.s.locks.server == n'.s.locks.send == Held(w) && n'.s.locks.connection.Free?
  {
    var n1 := ToPool(x, n0, n, w, e);
    var n2 := TakesSlot(x, n0, n1, w, e, later, pool, slot);
    n' := LocksSend(x, n0, n2, w, later, slot);
  }

  // The first worker's exchange

  /** In its exchange over connection 1 the first worker stands at pc and has looked reps times; the object says h. */
  predicate Stands(s: State, pc: Pc, reps: nat, late: bool, locks: Locks, h: Http) {
    && |s.workers| == 2 && s.workers[1] == FRESH
    && s.workers[0].pc == pc && s.workers[0].conn == 1 && s.workers[0].reps == reps
    && s.workers[0].needToRelock == late && s.locks == locks
    && |s.pool.slots| == NCONNECTIONS && s.pool.slots[0] == Slot(1, INUSE) && s.pool.heap == map[1 := h]
  }

  /** What it holds: the two mutexes, unless it has given them up because the answer is late. */
  function Holding(late: bool): Locks {
    if late then Locks(Free, Free, Free, Free) else Locks(Held(0), Held(0), Free, Free)
  }

  predicate Talks(n: World, pc: Pc, reps: nat, late: bool, wire: Wire, h: Http) {
    Stands(n.s, pc, reps, late, Holding(late), h) && 1 in n.wires && n.wires[1] == wire
  }

  /** The pool when the first connection, at address 1, has been taken. */
  lemma FirstTaken(p: Pool) returns (p': Pool)
    requires p == Initial(0, 0).pool
    ensures Take(p, 1) == Some((p', 0)) && |p'.slots| == NCONNECTIONS
    ensures p'.slots[0] == Slot(1, INUSE) && p'.heap == map[1 := Http(REQUEST, 0)]
  {
    assert FirstWithStatus(p.slots, VALID) == None;
    assert FirstWithStatus(p.slots, UNINIT) == Some(0);
    p' := Take(p, 1).value.0;
  }

  lemma Sends(x: Library, n0: World, n: World) returns (n': World)
    requires CanReach(x, n0, n) && |n.s.workers| == 2 && n.s.workers[1] == FRESH
    requires n.s.workers[0].pc == Pc.Send && n.s.workers[0].conn == 1
    requires n.s.locks == Locks(Held(0), Held(0), Free, Free)
    requires |n.s.pool.slots| == NCONNECTIONS && n.s.pool.slots[0] == Slot(1, INUSE)
    requires n.s.pool.heap == map[1 := Http(REQUEST, 0)]
    ensures CanReach(x, n0, n') && Talks(n', Pc.Receive, 0, false, SILENT, Http(INITIAL, -1))
  {
    n' := Next(x, n, WorkerThread(0), Calm(2));
    Goes(x, n0, n, WorkerThread(0), Calm(2), n');
  }

  /** It sends its request over a fresh connection. */
  lemma Asks(x: Library, n0: World, n: World) returns (n': World)
    requires CanReach(x, n0, n) && n.s.workers == [FRESH, FRESH] && n.s.pool == Initial(0, 0).pool
    requires n.s.locks == Locks(Free, Free, Free, Free)
    ensures CanReach(x, n0, n') && Talks(n', Pc.Receive, 0, false, SILENT, Http(INITIAL, -1))
  {
    var pool := FirstTaken(n.s.pool);
    var n1 := ToSend(x, n0, n, 0, Calm(1), Calm(2), pool, 0);
    n' := Sends(x, n0, n1);
  }

  /** A step of the first worker, when connection 1 is the only one. */
  lemma Works(x: Library, n0: World, n: World, e: Event, h: Http, s': State) returns (n': World)
    requires CanReach(x, n0, n) && Enabled(n.s, WorkerThread(0)) && n.s.pool.heap == map[1 := h]
    requires e.address == 2 && (e.arrival.Data? ==> 0 < |e.arrival.bytes| <= BUFSIZ)
    requires WorkerStep(n.s, 0, InputOf(x, n, WorkerThread(0), e)) == Running(s')
    ensures CanReach(x, n0, n') && n' == World(s', Rewired(x, n, WorkerThread(0), e))
  {
    n' := Next(x, n, WorkerThread(0), e);
    Goes(x, n0, n, WorkerThread(0), e, n');
  }

  /** What a look tells the machine. */
  lemma LookTells(x: Library, n: World, reps: nat, late: bool, wire: Wire, h: Http, look: Conn, i: Input)
    requires Talks(n, Pc.Receive, reps, late, wire, h) && look == Parsed(x, wire)
    requires i == InputOf(x, n, WorkerThread(0), Calm(2))
    ensures i.state == look.state && i.code == look.code && i.wait == x.waits(look.buf)
    ensures 1 in Rewired(x, n, WorkerThread(0), Calm(2))
    ensures Rewired(x, n, WorkerThread(0), Calm(2))[1] == wire.(c := look)
  {
  }

  /** Where it goes on after a look: it is about to give up its locks, or to read more. */
  function AfterLook(reps: nat, late: bool, state: HttpState): Pc {
    if !late && reps > 0 && state != HEADERS then Pc.DelaySend else Pc.Fetch
  }

  lemma LookGoesOn(s: State, reps: nat, late: bool, h: Http, i: Input) returns (s': State)
    requires Stands(s, Pc.Receive, reps, late, Holding(late), h) && !i.state.Finished()
    ensures WorkerStep(s, 0, i) == Running(s')
    ensures Stands(s', AfterLook(reps, late, i.state), reps + 1, late, Holding(late), Http(i.state, i.code))
  {
    s' := LookAt(s, 0, i);
  }

  /** A look that does not complete the answer. */
  lemma Looks(x: Library, n0: World, n: World, reps: nat, late: bool, wire: Wire, h: Http, look: Conn)
    returns (n': World)
    requires CanReach(x, n0, n) && Talks(n, Pc.Receive, reps, late, wire, h)
    requires look == Parsed(x, wire) && !look.state.Finished()
    ensures CanReach(x, n0, n')
    ensures Talks(n', AfterLook(reps, late, look.state), reps + 1, late, wire.(c := look), Http(look.state, look.code))
  {
    var i := InputOf(x, n, WorkerThread(0), Calm(2));
    LookTells(x, n, reps, late, wire, h, look, i);
    var s' := LookGoesOn(n.s, reps, late, h, i);
    n' := Works(x, n0, n, Calm(2), h, s');
  }

  lemma Unlocks(s: State, reps: nat, h: Http, i: Input) returns (s1: State, s2: State)
    requires Stands(s, Pc.DelaySend, reps, false, Holding(false), h)
    ensures WorkerStep(s, 0, i) == Running(s1)
    ensures Stands(s1, Pc.DelayServer, reps, false, Locks(Held(0), Free, Free, Free), h)
    ensures WorkerStep(s1, 0, i) == Running(s2) && Stands(s2, Pc.Fetch, reps, true, Holding(true), h)
  {
    s1 := Release(s, 0).s;
    s2 := Release(s1, 0).s;
  }

  lemma UnlockingIsDeaf(s: State, i: Input, j: Input)
    requires Enabled(s, WorkerThread(0)) && Gives(s.workers[0].pc).Some?
    ensures WorkerStep(s, 0, i) == WorkerStep(s, 0, j)
  {
  }

  lemma GivesUp(x: Library, n0: World, n: World, reps: nat, wire: Wire, h: Http) returns (n': World)
    requires CanReach(x, n0, n) && Talks(n, Pc.DelaySend, reps, false, wire, h)
    ensures CanReach(x, n0, n') && Talks(n', Pc.Fetch, reps, true, wire, h)
  {
    var i := InputOf(x, n, WorkerThread(0), Calm(2));
    var s1, s2 := Unlocks(n.s, reps, h, i);
    var n1 := Works(x, n0, n, Calm(2), h, s1);
    UnlockingIsDeaf(s1, i, InputOf(x, n1, WorkerThread(0), Calm(2)));
    n' := Works(x, n0, n1, Calm(2), h, s2);
  }

  /** A later look outside the headers makes it give up its locks. */
  lemma LooksLong(x: Library, n0: World, n: World, reps: nat, wire: Wire, h: Http, look: Conn) returns (n': World)
    requires CanReach(x, n0, n) && Talks(n, Pc.Receive, reps, false, wire, h)
    requires look == Parsed(x, wire) && !look.state.Finished() && reps > 0 && look.state != HEADERS
    ensures CanReach(x, n0, n')
    ensures Talks(n', Pc.Fetch, reps + 1, true, wire.(c := look), Http(look.state, look.code))
  {
    var n1 := Looks(x, n0, n, reps, false, wire, h, look);
    n' := GivesUp(x, n0, n1, reps + 1, wire.(c := look), Http(look.state, look.code));
  }

  lemma FetchGoesOn(s: State, reps: nat, late: bool, h: Http, i: Input) returns (s': State)
    requires Stands(s, Pc.Fetch, reps, late, Holding(late), h) && !i.overlong && !i.broken
    ensures WorkerStep(s, 0, i) == Running(s') && Stands(s', Pc.Receive, reps, late, Holding(late), h)
  {
    s' := At(s, 0, Pc.Receive);
  }

  lemma Reads(x: Library, n0: World, n: World, reps: nat, late: bool, wire: Wire, h: Http, a: Arrival)
    returns (n': World)
    requires CanReach(x, n0, n) && Talks(n, Pc.Fetch, reps, late, wire, h) && |wire.c.buf| < 49 * BUFSIZ
    requires a.Data? ==> 0 < |a.bytes| <= BUFSIZ
    ensures CanReach(x, n0, n') && Talks(n', Pc.Receive, reps, late, Received(wire, a), h)
  {
    var e := Event(2, a, false);
    var s' := FetchGoesOn(n.s, reps, late, h, InputOf(x, n, WorkerThread(0), e));
    n' := Works(x, n0, n, e, h, s');
  }

  lemma LookEnds(s: State, reps: nat, late: bool, h: Http, i: Input) returns (s': State)
    requires Stands(s, Pc.Receive, reps, late, Holding(late), h) && i.state.Finished() && !i.wait
    ensures WorkerStep(s, 0, i) == Running(s')
    ensures Stands(s', Pc.Judge, reps, late, Holding(late), Http(i.state, i.code))
  {
    s' := LookAt(s, 0, i);
  }

  /** The look with which the answer is complete. */
  lemma Finishes(x: Library, n0: World, n: World, reps: nat, late: bool, wire: Wire, h: Http, look: Conn)
    returns (n': World)
    requires CanReach(x, n0, n) && Talks(n, Pc.Receive, reps, late, wire, h)
    requires look == Parsed(x, wire) && look.state.Finished() && !x.waits(look.buf)
    ensures CanReach(x, n0, n')
    ensures Talks(n', Pc.Judge, reps, late, wire.(c := look), Http(look.state, look.code))
  {
    var i := InputOf(x, n, WorkerThread(0), Calm(2));
    LookTells(x, n, reps, late, wire, h, look, i);
    var s' := LookEnds(n.s, reps, late, h, i);
    n' := Works(x, n0, n, Calm(2), h, s');
  }

  // A late answer without a status

  /**
   * Two looks find nothing, so that the first worker gives up its locks; then the server closes the connection, and the
   * last assertion of http_receive_response fails.
   */
  lemma LateErrorHappens(x: Library, width: int, height: int)
    requires !x.waits([])
    ensures CanEnd(x, Boot(width, height), Failed(LateError))
  {
    var n0 := Boot(width, height);
    var h := Http(INITIAL, -1);
    var n1 := TwoStart(x, width, height);
    var n2 := Asks(x, n0, n1);
    var n3 := Looks(x, n0, n2, 0, false, SILENT, h, SENT);
    var n4 := Reads(x, n0, n3, 1, false, SILENT, h, Nothing);
    var n5 := LooksLong(x, n0, n4, 1, SILENT, h, SENT);
    var n6 := Reads(x, n0, n5, 2, true, SILENT, h, Eof);
    var n7 := Finishes(x, n0, n6, 2, true, SILENT.(eof := true), h, SENT.(state := BROKEN));
    assert EndsIn(x, n7, WorkerThread(0), Calm(2), Failed(LateError));
  }

  // A connection that the server closes after the status line

  /** The wire when the status line has arrived, when it has been taken in, and when it has been closed. */
  function WithLine(line: seq<Byte>): Wire { Received(SILENT, Data(line + CRLF)) }

  function AfterLine(line: seq<Byte>): Wire { Wire(Conn(HEADERS, 200, 0, false, []), false, line + CRLF) }

  function AfterEnd(line: seq<Byte>): Wire { Wire(Conn(BROKEN, 200, 0, false, []), true, line + CRLF) }

  /** What the parser makes of a status line alone. */
  lemma StatusLineLook(x: Library, line: seq<Byte>, wire: Wire, look: Conn)
    requires IsLine(line) && x.syntax.status(line) == Some(200)
    requires wire == WithLine(line) && look == AfterLine(line).c
    ensures Parsed(x, wire) == look && wire.(c := look) == AfterLine(line)
  {
    var c := wire.c;
    assert c.buf == line + CRLF && wire.stream == line + CRLF;
    assert c.buf[..|line|] == line && c.buf[|line| + 2..] == [];
    assert TakeLine(x.syntax, c, |line|) == look;
    assert Drain(x.syntax, look) == look;
    assert Drain(x.syntax, c) == look;
  }

  lemma GetsStatus(x: Library, n0: World, n: World, line: seq<Byte>, wire: Wire) returns (n': World)
    requires CanReach(x, n0, n) && Talks(n, Pc.Receive, 1, false, wire, Http(INITIAL, -1)) && wire == WithLine(line)
    requires IsLine(line) && x.syntax.status(line) == Some(200)
    ensures CanReach(x, n0, n') && Talks(n', Pc.Fetch, 2, false, AfterLine(line), Http(HEADERS, 200))
  {
    var look := AfterLine(line).c;
    StatusLineLook(x, line, wire, look);
    n' := Looks(x, n0, n, 1, false, wire, Http(INITIAL, -1), look);
  }

  lemma LosesConnection(x: Library, n0: World, n: World, wire: Wire, wire': Wire) returns (n': World)
    requires CanReach(x, n0, n) && Talks(n, Pc.Fetch, 2, false, wire, Http(HEADERS, 200)) && !x.waits([])
    requires wire.c == Conn(HEADERS, 200, 0, false, []) && !wire.eof
    requires wire' == wire.(c := wire.c.(state := BROKEN), eof := true)
    ensures CanReach(x, n0, n') && Talks(n', Pc.Judge, 2, false, wire', Http(BROKEN, 200))
  {
    var n1 := Reads(x, n0, n, 2, false, wire, Http(HEADERS, 200), Eof);
    n' := Finishes(x, n0, n1, 2, false, wire.(eof := true), Http(HEADERS, 200), wire'.c);
  }

  /** The first worker's answer has status 200 and ends with the connection. */
  lemma GetsBrokenAnswer(x: Library, n0: World, n: World, line: seq<Byte>) returns (n': World)
    requires CanReach(x, n0, n) && Talks(n, Pc.Receive, 0, false, SILENT, Http(INITIAL, -1))
    requires IsLine(line) && x.syntax.status(line) == Some(200) && |line| + 2 <= BUFSIZ && !x.waits([])
    ensures CanReach(x, n0, n') && Talks(n', Pc.Judge, 2, false, AfterEnd(line), Http(BROKEN, 200))
  {
    var n1 := Looks(x, n0, n, 0, false, SILENT, Http(INITIAL, -1), SENT);
    var n2 := Reads(x, n0, n1, 1, false, SILENT, Http(INITIAL, -1), Data(line + CRLF));
    var n3 := GetsStatus(x, n0, n2, line, WithLine(line));
    n' := LosesConnection(x, n0, n3, AfterLine(line), AfterEnd(line));
  }

  /** After its exchange the first worker stands at pc; locks and slot as given. */
  predicate Done(s: State, pc: Pc, locks: Locks, status: Status) {
    && |s.workers| == 2 && s.workers[1] == FRESH && s.workers[0].pc == pc && s.workers[0].conn == 1
    && s.locks == locks && |s.pool.slots| == NCONNECTIONS && s.pool.slots[0] == Slot(1, status)
    && s.pool.heap == map[1 := Http(BROKEN, 200)]
  }

  predicate Leaves(n: World, pc: Pc, locks: Locks, status: Status) {
    Done(n.s, pc, locks, status) && 1 in n.wires && n.wires[1].c.buf == []
  }

  /** A step that leaves the wires alone. */
  lemma LeavesOn(x: Library, n0: World, n: World, pc: Pc, locks: Locks, status: Status, s': State, pc': Pc,
                 locks': Locks, status': Status) returns (n': World)
    requires CanReach(x, n0, n) && Leaves(n, pc, locks, status) && Enabled(n.s, WorkerThread(0))
    requires !pc.Send? && !pc.Receive? && !pc.Fetch?
    requires WorkerStep(n.s, 0, InputOf(x, n, WorkerThread(0), Calm(2))) == Running(s')
    requires Done(s', pc', locks', status')
    ensures CanReach(x, n0, n') && Leaves(n', pc', locks', status')
  {
    n' := Works(x, n0, n, Calm(2), Http(BROKEN, 200), s');
  }

  lemma Judges(s: State, reps: nat, i: Input) returns (s': State)
    requires Stands(s, Pc.Judge, reps, false, Holding(false), Http(BROKEN, 200))
    ensures WorkerStep(s, 0, i) == Running(s') && Done(s', Pc.FreeSend, Holding(false), INUSE)
  {
    s' := At(s, 0, Pc.FreeSend);
  }

  lemma UnlocksOne(s: State, pc: Pc, locks: Locks, status: Status, i: Input, l: Lock) returns (s': State)
    requires Done(s, pc, locks, status) && Gives(pc) == Some(l) && locks.Get(l) == Held(0)
    ensures WorkerStep(s, 0, i) == Running(s')
    ensures Done(s', Then(s.workers[0]).pc, locks.Set(l, Free), status)
  {
    s' := Release(s, 0).s;
  }

  lemma JudgesOn(x: Library, n0: World, n: World, reps: nat, wire: Wire) returns (n': World)
    requires CanReach(x, n0, n) && Talks(n, Pc.Judge, reps, false, wire, Http(BROKEN, 200)) && wire.c.buf == []
    ensures CanReach(x, n0, n') && Leaves(n', Pc.FreeSend, Holding(false), INUSE)
  {
    var s' := Judges(n.s, reps, InputOf(x, n, WorkerThread(0), Calm(2)));
    n' := Works(x, n0, n, Calm(2), Http(BROKEN, 200), s');
  }

  lemma FreesSend(x: Library, n0: World, n: World) returns (n': World)
    requires CanReach(x, n0, n) && Leaves(n, Pc.FreeSend, Holding(false), INUSE)
    ensures CanReach(x, n0, n') && Leaves(n', Pc.FreeServer, Locks(Held(0), Free, Free, Free), INUSE)
  {
    var one := Locks(Held(0), Free, Free, Free);
    var s' := UnlocksOne(n.s, Pc.FreeSend, Holding(false), INUSE, InputOf(x, n, WorkerThread(0), Calm(2)), SendLock);
    n' := LeavesOn(x, n0, n, Pc.FreeSend, Holding(false), INUSE, s', Pc.FreeServer, one, INUSE);
  }

  lemma FreesServer(x: Library, n0: World, n: World) returns (n': World)
    requires CanReach(x, n0, n) && Leaves(n, Pc.FreeServer, Locks(Held(0), Free, Free, Free), INUSE)
    ensures CanReach(x, n0, n') && Leaves(n', Pc.Report, Holding(true), INUSE)
  {
    var one := Locks(Held(0), Free, Free, Free);
    var s' := UnlocksOne(n.s, Pc.FreeServer, one, INUSE, InputOf(x, n, WorkerThread(0), Calm(2)), ServerLock);
    n' := LeavesOn(x, n0, n, Pc.FreeServer, one, INUSE, s', Pc.Report, Holding(true), INUSE);
  }

  lemma ReportGoesOn(s: State, i: Input) returns (s': State)
    requires Done(s, Pc.Report, Holding(true), INUSE) && !i.negative
    ensures WorkerStep(s, 0, i) == Running(s') && Done(s', Pc.PutLock, Holding(true), INUSE)
  {
    s' := With(s, 0, s.workers[0].(pc := PutLock, retry := false));
  }

  lemma Reports(x: Library, n0: World, n: World) returns (n': World)
    requires CanReach(x, n0, n) && Leaves(n, Pc.Report, Holding(true), INUSE) && !x.negative([])
    ensures CanReach(x, n0, n') && Leaves(n', Pc.PutLock, Holding(true), INUSE)
  {
    var s' := ReportGoesOn(n.s, InputOf(x, n, WorkerThread(0), Calm(2)));
    n' := LeavesOn(x, n0, n, Pc.Report, Holding(true), INUSE, s', Pc.PutLock, Holding(true), INUSE);
  }

  const IN_POOL: Locks := Locks(Free, Free, Held(0), Free)

  lemma PoolIsLocked(s: State, i: Input) returns (s': State)
    requires Done(s, Pc.PutLock, Holding(true), INUSE)
    ensures WorkerStep(s, 0, i) == Running(s') && Done(s', Pc.Put, IN_POOL, INUSE)
  {
    s' := Acquire(s, 0);
  }

  lemma LocksPool(x: Library, n0: World, n: World) returns (n': World)
    requires CanReach(x, n0, n) && Leaves(n, Pc.PutLock, Holding(true), INUSE)
    ensures CanReach(x, n0, n') && Leaves(n', Pc.Put, IN_POOL, INUSE)
  {
    var s' := PoolIsLocked(n.s, InputOf(x, n, WorkerThread(0), Calm(2)));
    n' := LeavesOn(x, n0, n, Pc.PutLock, Holding(true), INUSE, s', Pc.Put, IN_POOL, INUSE);
  }

  lemma PutGoesOn(s: State, i: Input) returns (s': State)
    requires Done(s, Pc.Put, IN_POOL, INUSE)
    ensures WorkerStep(s, 0, i) == Running(s') && Done(s', Pc.PutUnlock, IN_POOL, VALID)
  {
    assert FirstWithConn(s.pool.slots, 1) == Some(0);
    s' := PutBack(s, 0).s;
  }

  /** All the same the connection goes back to the pool, ready to be used again. */
  lemma PutsBack(x: Library, n0: World, n: World) returns (n': World)
    requires CanReach(x, n0, n) && Leaves(n, Pc.Put, IN_POOL, INUSE)
    ensures CanReach(x, n0, n') && Leaves(n', Pc.PutUnlock, IN_POOL, VALID)
  {
    var s' := PutGoesOn(n.s, InputOf(x, n, WorkerThread(0), Calm(2)));
    n' := LeavesOn(x, n0, n, Pc.Put, IN_POOL, INUSE, s', Pc.PutUnlock, IN_POOL, VALID);
  }

  /** The connection can be taken again. */
  predicate PutBackBroken(n: World) {
    && |n.s.workers| == 2 && n.s.workers[1] == FRESH && n.s.locks == Locks(Free, Free, Free, Free)
    && |n.s.pool.slots| == NCONNECTIONS && n.s.pool.slots[0] == Slot(1, VALID)
    && n.s.pool.heap == map[1 := Http(BROKEN, 200)]
  }

  lemma UnlocksPool(x: Library, n0: World, n: World) returns (n': World)
    requires CanReach(x, n0, n) && Leaves(n, Pc.PutUnlock, IN_POOL, VALID)
    ensures CanReach(x, n0, n') && PutBackBroken(n')
  {
    var i := InputOf(x, n, WorkerThread(0), Calm(2));
    var s' := UnlocksOne(n.s, Pc.PutUnlock, IN_POOL, VALID, i, ConnLock);
    n' := Works(x, n0, n, Calm(2), Http(BROKEN, 200), s');
  }

  /** The second worker takes it and fails the assertion of http_send_request. */
  lemma SecondFails(x: Library, n0: World, n: World)
    requires CanReach(x, n0, n) && PutBackBroken(n)
    ensures CanEnd(x, n0, Failed(BadState))
  {
    var pool := n.s.pool.(slots := n.s.pool.slots[0 := Slot(1, INUSE)]);
    assert Take(n.s.pool, 2) == Some((pool, 0));
    var n1 := ToSend(x, n0, n, 1, Calm(2), Calm(2), pool, 0);
    assert EndsIn(x, n1, WorkerThread(1), Calm(2), Failed(BadState));
  }

  /**
   * The server sends a good status line and closes the connection. The first worker reports status 200 and puts the
   * connection back, the second one takes it and fails the assertion of http_send_request.
   */
  lemma BadStateHappens(x: Library, width: int, height: int, line: seq<Byte>)
    requires IsLine(line) && x.syntax.status(line) == Some(200) && |line| + 2 <= BUFSIZ
    requires !x.waits([]) && !x.negative([])
    ensures CanEnd(x, Boot(width, height), Failed(BadState))
  {
    var n0 := Boot(width, height);
    var n1 := TwoStart(x, width, height);
    var n2 := Asks(x, n0, n1);
    var n3 := GetsBrokenAnswer(x, n0, n2, line);
    var n4 := JudgesOn(x, n0, n3, 2, AfterEnd(line));
    var n5 := FreesSend(x, n0, n4);
    var n6 := FreesServer(x, n0, n5);
    var n7 := Reports(x, n0, n6);
    var n8 := LocksPool(x, n0, n7);
    var n9 := PutsBack(x, n0, n8);
    var n10 := UnlocksPool(x, n0, n9);
    SecondFails(x, n0, n10);
  }

  // An answer that fills the buffer

  function Zeros(n: nat): seq<Byte> { seq(n, _ => 0) }

  /** A wire over which n bytes have come, none of which ends a line. */
  function Noise(n: nat): Wire { Wire(SENT.(buf := Zeros(n)), false, Zeros(n)) }

  lemma NoiseIsNoLine(x: Library, n: nat)
    ensures Parsed(x, Noise(n)) == Noise(n).c
  {
    assert FirstCrlf(Zeros(n)).None?;
  }

  lemma MoreNoise(n: nat)
    ensures Received(Noise(n), Data(Zeros(BUFSIZ))) == Noise(n + BUFSIZ)
  {
    assert Zeros(n) + Zeros(BUFSIZ) == Zeros(n + BUFSIZ);
  }

  /** Full reads without a line, until no other one fits. */
  lemma {:induction false} FillsUp(x: Library, n0: World, n: World, reps: nat, k: nat) returns (n': World)
    requires CanReach(x, n0, n) && k <= 49 && Talks(n, Pc.Fetch, reps, true, Noise(k * BUFSIZ), Http(INITIAL, -1))
    ensures CanReach(x, n0, n')
    ensures exists r: nat :: Talks(n', Pc.Fetch, r, true, Noise(49 * BUFSIZ), Http(INITIAL, -1))
    decreases 49 - k
  {
    if k == 49 {
      n' := n;
    } else {
      var h := Http(INITIAL, -1);
      MoreNoise(k * BUFSIZ);
      NoiseIsNoLine(x, (k + 1) * BUFSIZ);
      var n1 := Reads(x, n0, n, reps, true, Noise(k * BUFSIZ), h, Data(Zeros(BUFSIZ)));
      var n2 := Looks(x, n0, n1, reps, true, Noise((k + 1) * BUFSIZ), h, Noise((k + 1) * BUFSIZ).c);
      n' := FillsUp(x, n0, n2, reps + 1, k + 1);
    }
  }

  /** A server that sends 49 * BUFSIZ bytes without the end of a line makes the buffer's assertion fail. */
  lemma BufferFullHappens(x: Library, width: int, height: int)
    ensures CanEnd(x, Boot(width, height), Failed(BufferFull))
  {
    var n0 := Boot(width, height);
    var h := Http(INITIAL, -1);
    var n1 := TwoStart(x, width, height);
    var n2 := Asks(x, n0, n1);
    var n3 := Looks(x, n0, n2, 0, false, SILENT, h, SENT);
    var n4 := Reads(x, n0, n3, 1, false, SILENT, h, Nothing);
    var n5 := LooksLong(x, n0, n4, 1, SILENT, h, SENT);
    assert Noise(0) == SILENT;
    var n6 := FillsUp(x, n0, n5, 2, 0);
    assert EndsIn(x, n6, WorkerThread(0), Calm(2), Failed(BufferFull));
  }
}
