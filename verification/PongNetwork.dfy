/**
 * pong61's threads with the parser in their hands: the machine of Pong in which a worker sees of an answer exactly what
 * http_consume_headers makes of the bytes that have arrived over its connection.
 */
module PongNetwork {
  import opened Wrappers
  import opened PongPath
  import opened PongPool
  import opened PongParser
  import opened Pong
  import opened PongLocks
  import opened PongShared
  import opened PongTheorems

  /** What the library makes of text, and of a body: whether it asks to wait, and whether it is a negative number. */
  datatype Library = Library(syntax: Syntax, waits: seq<Byte> -> bool, negative: seq<Byte> -> bool)

  /** The receiving end of a connection. The program does not store `stream`, all bytes since the last request. */
  datatype Wire = Wire(c: Conn, eof: bool, stream: seq<Byte>)

  /** The machine, and the receiving ends by the addresses of the connection objects. */
  datatype World = World(s: State, wires: map<nat, Wire>)

  /** What meets a step: the address that malloc returns, what read brings, and whether a system call fails. */
  datatype Event = Event(address: nat, arrival: Arrival, broken: bool)

  datatype Happening = Happening(thread: Thread, event: Event)

  const SILENT: Wire := Wire(SENT, false, [])

  function Boot(width: int, height: int): World {
    World(Initial(width, height), map[])
  }

  // The steps

  predicate IsWorker(n: World, t: Thread) { t.WorkerThread? && t.id < |n.s.workers| }

  function WireOf(n: World, t: Thread): Wire {
    if IsWorker(n, t) && n.s.workers[t.id].conn in n.wires then n.wires[n.s.workers[t.id].conn] else SILENT
  }

  function Parsed(x: Library, wire: Wire): Conn { Consume(x.syntax, wire.c, wire.eof) }

  /** What the machine is told in a step. */
  function InputOf(x: Library, n: World, t: Thread, e: Event): Input {
    var wire := WireOf(n, t);
    var look := Parsed(x, wire);
    Input(e.address, look.state, look.code, x.waits(look.buf), |wire.c.buf| >= 49 * BUFSIZ, x.negative(wire.c.buf),
          e.broken)
  }

  function Received(wire: Wire, a: Arrival): Wire {
    match a
    case Data(b) => wire.(c := Append(wire.c, b), stream := wire.stream + b)
    case Nothing => wire
    case Eof => wire.(eof := true)
  }

  /** The receiving ends after a step: a request starts anew, a look takes lines in, a read brings more. */
  function Rewired(x: Library, n: World, t: Thread, e: Event): map<nat, Wire> {
    if !IsWorker(n, t) then n.wires else
    var me, wire := n.s.workers[t.id], WireOf(n, t);
    match me.pc
    case Send => n.wires[me.conn := SILENT]
    case Receive => n.wires[me.conn := wire.(c := Parsed(x, wire))]
    case Fetch => n.wires[me.conn := Received(wire, e.arrival)]
    case _ => n.wires
  }

  /** A new object lies where none is, and a read brings one byte to BUFSIZ bytes. */
  predicate Plausible(n: World, e: Event) {
    && e.address != 0 && e.address !in n.s.pool.heap
    && (e.arrival.Data? ==> 0 < |e.arrival.bytes| <= BUFSIZ)
  }

  function WireStep(x: Library, n: World, t: Thread, e: Event): Outcome
    requires Enabled(n.s, t)
  {
    Step(n.s, t, InputOf(x, n, t, e))
  }

  function Next(x: Library, n: World, t: Thread, e: Event): World
    requires Enabled(n.s, t) && WireStep(x, n, t, e).Running?
  {
    World(WireStep(x, n, t, e).s, Rewired(x, n, t, e))
  }

  // What always holds

  /** What has arrived, in one piece. */
  function Whole(wire: Wire): Conn { Append(SENT, wire.stream) }

  predicate InProgress(h: Http) { !h.state.REQUEST? && !h.state.Finished() }

  /** No byte is lost on the way: what is still to be parsed means what the whole stream means. */
  ghost predicate WireOk(x: Library, wire: Wire) {
    && !wire.c.state.Finished() && !wire.c.state.REQUEST?
    && Drain(x.syntax, wire.c) == Drain(x.syntax, Whole(wire))
  }

  /**
   * The state and status of a connection object whose answer is complete are what one pass over all that has arrived
   * gives, and its buffer has room for a null character.
   */
  ghost predicate AnswerOk(x: Library, n: World, a: nat)
    requires a in n.s.pool.heap
  {
    var h := n.s.pool.heap[a];
    h.state.REQUEST? ||
    (&& a in n.wires && |n.wires[a].c.buf| < 50 * BUFSIZ
     && if h.state.Finished() then IsAnswer(x, n.wires[a], h) else WireOk(x, n.wires[a]))
  }

  ghost predicate IsAnswer(x: Library, wire: Wire, h: Http) {
    && wire.c == Consume(x.syntax, Whole(wire), wire.eof)
    && h == Http(wire.c.state, wire.c.code)
  }

  predicate OnLine(pc: Pc) { pc.Receive? || pc.Fetch? || pc.DelaySend? || pc.DelayServer? }

  /** A worker between two looks knows the state and status that one pass over all that has arrived gives. */
  ghost predicate TurnOk(x: Library, n: World, w: nat)
    requires w < |n.s.workers|
  {
    var me := n.s.workers[w];
    OnLine(me.pc) ==>
      && me.conn in n.s.pool.heap && InProgress(n.s.pool.heap[me.conn]) && me.conn in n.wires
      && (!me.pc.Receive? ==> !n.wires[me.conn].eof && IsAnswer(x, n.wires[me.conn], n.s.pool.heap[me.conn]))
  }

  ghost predicate WiresOk(x: Library, n: World) {
    && (forall a :: a in n.wires ==> !n.wires[a].c.state.REQUEST?)
    && (forall a :: a in n.s.pool.heap ==> AnswerOk(x, n, a))
    && (forall w :: 0 <= w < |n.s.workers| ==> TurnOk(x, n, w))
  }

  ghost predicate Good(x: Library, n: World) {
    Inv(n.s) && WiresOk(x, n)
  }

  // The parser's part

  lemma {:induction false} DrainNeverRequest(x: Syntax, c: Conn)
    requires !c.state.REQUEST?
    ensures !Drain(x, c).state.REQUEST?
    decreases |c.buf|
  {
    if InHead(c) && FirstCrlf(c.buf).Some? {
      DrainNeverRequest(x, TakeLine(x, c, FirstCrlf(c.buf).value));
    }
  }

  /** Nothing is left to take in after taking in all lines. */
  lemma DrainTwice(x: Syntax, c: Conn)
    ensures Drain(x, Drain(x, c)) == Drain(x, c)
  {
    DrainAppend(x, c, []);
    AppendNothing(c);
    AppendNothing(Drain(x, c));
  }

  /** A look gives what one pass over the whole stream gives, and loses nothing. */
  lemma LookIsOnePass(x: Library, wire: Wire)
    requires WireOk(x, wire)
    ensures var look := Parsed(x, wire);
      && look == Consume(x.syntax, Whole(wire), wire.eof) && !look.state.REQUEST? && |look.buf| <= |wire.c.buf|
      && (!look.state.Finished() ==> !wire.eof && WireOk(x, wire.(c := look)))
  {
    DrainNeverRequest(x.syntax, wire.c);
    DrainTwice(x.syntax, wire.c);
    DrainShrinks(x.syntax, wire.c);
  }

  /** A read after an incomplete look loses nothing either. */
  lemma ReadLosesNothing(x: Library, wire: Wire, a: Arrival)
    requires !wire.eof && wire.c == Consume(x.syntax, Whole(wire), false)
    requires !wire.c.state.Finished() && !wire.c.state.REQUEST?
    ensures WireOk(x, Received(wire, a))
  {
    var d := Drain(x.syntax, Whole(wire));
    assert wire.c == d;
    match a
    case Data(b) =>
      DrainAppend(x.syntax, Whole(wire), b);
      assert [] + wire.stream + b == [] + (wire.stream + b);
      assert Append(Whole(wire), b) == Whole(Received(wire, a));
    case _ =>
      DrainTwice(x.syntax, Whole(wire));
  }

  lemma {:induction false} HeadersNeverBreak(x: Syntax, c: Conn)
    requires c.state.HEADERS? || c.state.BODY?
    ensures Drain(x, c).state.HEADERS? || Drain(x, c).state.BODY?
    decreases |c.buf|
  {
    if InHead(c) && FirstCrlf(c.buf).Some? {
      HeadersNeverBreak(x, TakeLine(x, c, FirstCrlf(c.buf).value));
    }
  }

  /** An answer that breaks while the connection is open has no status. */
  lemma BrokenWhileOpen(x: Syntax, stream: seq<Byte>)
    requires Consume(x, Append(SENT, stream), false).state == BROKEN
    ensures Consume(x, Append(SENT, stream), false).code == -1
  {
    var c := Append(SENT, stream);
    if FirstCrlf(c.buf).Some? {
      var c' := TakeLine(x, c, FirstCrlf(c.buf).value);
      if c'.state.HEADERS? {
        HeadersNeverBreak(x, c');
      } else {
        assert Drain(x, c') == c';
      }
    }
  }

  // Every step keeps it

  lemma InputIsPossible(x: Library, n: World, t: Thread, e: Event)
    requires WiresOk(x, n) && Plausible(n, e)
    ensures Possible(n.s, InputOf(x, n, t, e))
  {
    DrainNeverRequest(x.syntax, WireOf(n, t).c);
  }

  /** Nothing has happened to any connection but the one at address a. */
  ghost predicate ElsewhereSame(n: World, n': World, a: nat) {
    forall b {:trigger b in n'.s.pool.heap} {:trigger b in n'.wires} :: b != a ==>
      && (b in n'.s.pool.heap <==> b in n.s.pool.heap) && (b in n'.wires <==> b in n.wires)
      && (b in n.s.pool.heap ==> n'.s.pool.heap[b] == n.s.pool.heap[b])
      && (b in n.wires ==> n'.wires[b] == n.wires[b])
  }

  /** The other connections and workers do not notice what a worker does with its own connection. */
  lemma OthersKeepTurns(x: Library, n: World, n': World, w: nat, a: nat, v: nat)
    requires ConnectionsOk(n.s) && w < |n.s.workers| && OnlyWorker(n.s, n'.s, w)
    requires HasConn(n.s.workers[w]) && n.s.workers[w].conn == a && ElsewhereSame(n, n', a)
    requires v < |n.s.workers| && v != w && TurnOk(x, n, v)
    ensures TurnOk(x, n', v)
  {
    var me := n.s.workers[v];
    assert n'.s.workers[v] == me;
    if OnLine(me.pc) {
      assert me.conn != a by {
        if me.conn == a {
          ConnectionsArePrivate(n.s, v, w);
        }
      }
      assert me.conn in n'.s.pool.heap && me.conn in n'.wires;
    }
  }

  lemma ExchangeKeepsWires(x: Library, n: World, n': World, w: nat, a: nat)
    requires ConnectionsOk(n.s) && WiresOk(x, n) && w < |n.s.workers| && OnlyWorker(n.s, n'.s, w)
    requires HasConn(n.s.workers[w]) && n.s.workers[w].conn == a && ElsewhereSame(n, n', a)
    requires a in n'.s.pool.heap ==> AnswerOk(x, n', a)
    requires a in n'.wires ==> !n'.wires[a].c.state.REQUEST?
    requires TurnOk(x, n', w)
    ensures WiresOk(x, n')
  {
    forall b | b in n'.wires ensures !n'.wires[b].c.state.REQUEST? {
    }
    forall b | b in n'.s.pool.heap ensures AnswerOk(x, n', b) {
      if b != a {
        assert AnswerOk(x, n, b);
      }
    }
    forall v | 0 <= v < |n'.s.workers| ensures TurnOk(x, n', v) {
      if v != w {
        assert TurnOk(x, n, v);
        OthersKeepTurns(x, n, n', w, a, v);
      }
    }
  }

  lemma SendKeepsWires(x: Library, n: World, w: nat, e: Event, n': World)
    requires ConnectionsOk(n.s) && WiresOk(x, n) && w < |n.s.workers| && n.s.workers[w].pc == Send
    requires WireStep(x, n, WorkerThread(w), e).Running? && n' == Next(x, n, WorkerThread(w), e)
    ensures WiresOk(x, n')
  {
    var a := n.s.workers[w].conn;
    assert n'.wires[a] == SILENT && n'.s.pool.heap[a] == Http(INITIAL, -1);
    assert Whole(SILENT) == SENT;
    ExchangeKeepsWires(x, n, n', w, a);
  }

  /** The connection object after a look knows what one pass over all that has arrived gives. */
  lemma LookTells(x: Library, n: World, w: nat, e: Event, n': World, a: nat)
    requires WiresOk(x, n) && w < |n.s.workers| && n.s.workers[w].pc.Receive? && n.s.workers[w].conn == a
    requires WireStep(x, n, WorkerThread(w), e).Running? && n' == Next(x, n, WorkerThread(w), e)
    ensures a in n'.wires && a in n'.s.pool.heap && AnswerOk(x, n', a) && !n'.wires[a].c.state.REQUEST?
    ensures IsAnswer(x, n'.wires[a], n'.s.pool.heap[a])
    ensures !n'.s.pool.heap[a].state.Finished() ==> !n'.wires[a].eof
  {
    assert TurnOk(x, n, w) && AnswerOk(x, n, a);
    var wire := n.wires[a];
    LookIsOnePass(x, wire);
    var wire' := wire.(c := Parsed(x, wire));
    assert n'.wires[a] == wire' && n'.s.pool.heap[a] == Http(wire'.c.state, wire'.c.code);
    assert Whole(wire') == Whole(wire);
  }

  lemma LookKeepsWires(x: Library, n: World, w: nat, e: Event, n': World)
    requires ConnectionsOk(n.s) && WiresOk(x, n) && w < |n.s.workers| && n.s.workers[w].pc.Receive?
    requires WireStep(x, n, WorkerThread(w), e).Running? && n' == Next(x, n, WorkerThread(w), e)
    ensures WiresOk(x, n')
  {
    var a := n.s.workers[w].conn;
    LookTells(x, n, w, e, n', a);
    ExchangeKeepsWires(x, n, n', w, a);
  }

  lemma FetchKeepsWires(x: Library, n: World, w: nat, e: Event, n': World)
    requires ConnectionsOk(n.s) && WiresOk(x, n) && w < |n.s.workers| && n.s.workers[w].pc.Fetch?
    requires Plausible(n, e)
    requires WireStep(x, n, WorkerThread(w), e).Running? && n' == Next(x, n, WorkerThread(w), e)
    ensures WiresOk(x, n')
  {
    var a := n.s.workers[w].conn;
    assert TurnOk(x, n, w) && AnswerOk(x, n, a);
    var wire := n.wires[a];
    ReadLosesNothing(x, wire, e.arrival);
    assert n'.wires[a] == Received(wire, e.arrival) && n'.s.pool == n.s.pool;
    ExchangeKeepsWires(x, n, n', w, a);
  }

  lemma PutKeepsWires(x: Library, n: World, w: nat, e: Event, n': World)
    requires ConnectionsOk(n.s) && WiresOk(x, n) && w < |n.s.workers| && n.s.workers[w].pc == Put
    requires WireStep(x, n, WorkerThread(w), e).Running? && n' == Next(x, n, WorkerThread(w), e)
    ensures WiresOk(x, n')
  {
    var a := n.s.workers[w].conn;
    assert a in n.s.pool.heap ==> AnswerOk(x, n, a);
    ExchangeKeepsWires(x, n, n', w, a);
  }

  lemma ScanKeepsWires(x: Library, n: World, w: nat, e: Event, n': World)
    requires ConnectionsOk(n.s) && WiresOk(x, n) && w < |n.s.workers| && n.s.workers[w].pc == PoolScan
    requires Plausible(n, e)
    requires WireStep(x, n, WorkerThread(w), e).Running? && n' == Next(x, n, WorkerThread(w), e)
    ensures WiresOk(x, n')
  {
    TakeKeepsPool(n.s.pool, e.address);
    forall b | b in n'.s.pool.heap ensures AnswerOk(x, n', b) {
      if b in n.s.pool.heap {
        assert AnswerOk(x, n, b);
      }
    }
    forall v | 0 <= v < |n'.s.workers| ensures TurnOk(x, n', v) {
      assert TurnOk(x, n, v);
    }
  }

  predicate TouchesWires(pc: Pc) { TouchesPool(pc) || pc.Fetch? }

  /** Worker w stays off the line, or goes on between two looks. */
  predicate StaysOnLine(before: Worker, after: Worker) {
    OnLine(after.pc) ==> OnLine(before.pc) && !before.pc.Receive? && !after.pc.Receive? && after.conn == before.conn
  }

  lemma LockingStaysOnLine(s: State, w: nat, i: Input, s': State)
    requires Enabled(s, WorkerThread(w)) && WorkerStep(s, w, i) == Running(s')
    requires Wants(s.workers[w].pc).Some? || Gives(s.workers[w].pc).Some?
    ensures StaysOnLine(s.workers[w], s'.workers[w]) && s'.pool == s.pool
  {
  }

  lemma OtherActsStayOnLine(s: State, w: nat, i: Input, s': State)
    requires w < |s.workers| && !TouchesWires(s.workers[w].pc) && s.workers[w].pc != Gone
    requires Wants(s.workers[w].pc).None? && Gives(s.workers[w].pc).None?
    requires Act(s, w, i) == Running(s')
    ensures StaysOnLine(s.workers[w], s'.workers[w]) && s'.pool == s.pool
  {
    ActFlows(s, w, i, s');
    OtherActsKeepPool(s, w, i, s');
  }

  lemma SamePoolKeepsWires(x: Library, n: World, w: nat, n': World)
    requires WiresOk(x, n) && w < |n.s.workers| && OnlyWorker(n.s, n'.s, w)
    requires n'.wires == n.wires && n'.s.pool == n.s.pool && StaysOnLine(n.s.workers[w], n'.s.workers[w])
    ensures WiresOk(x, n')
  {
    forall b | b in n'.s.pool.heap ensures AnswerOk(x, n', b) {
      assert AnswerOk(x, n, b);
    }
    forall v | 0 <= v < |n'.s.workers| ensures TurnOk(x, n', v) {
      assert TurnOk(x, n, v) && TurnOk(x, n, w);
    }
  }

  lemma OtherStepsKeepWires(x: Library, n: World, w: nat, e: Event, n': World)
    requires WiresOk(x, n) && Enabled(n.s, WorkerThread(w)) && !TouchesWires(n.s.workers[w].pc)
    requires WireStep(x, n, WorkerThread(w), e).Running? && n' == Next(x, n, WorkerThread(w), e)
    ensures WiresOk(x, n')
  {
    var i := InputOf(x, n, WorkerThread(w), e);
    if Wants(n.s.workers[w].pc).Some? || Gives(n.s.workers[w].pc).Some? {
      LockingStaysOnLine(n.s, w, i, n'.s);
    } else {
      OtherActsStayOnLine(n.s, w, i, n'.s);
    }
    SamePoolKeepsWires(x, n, w, n');
  }

  lemma MainKeepsWires(x: Library, n: World, e: Event, n': World)
    requires WiresOk(x, n) && Enabled(n.s, MainThread)
    requires WireStep(x, n, MainThread, e).Running? && n' == Next(x, n, MainThread, e)
    ensures WiresOk(x, n')
  {
    assert n'.wires == n.wires && n'.s.pool == n.s.pool;
    forall b | b in n'.s.pool.heap ensures AnswerOk(x, n', b) {
      assert AnswerOk(x, n, b);
    }
    forall v | 0 <= v < |n'.s.workers| ensures TurnOk(x, n', v) {
      assert v < |n.s.workers| ==> TurnOk(x, n, v);
    }
  }

  /** Every step keeps the tie between what the machine knows of an answer and what has arrived of it. */
  lemma WireStepIsGood(x: Library, n: World, t: Thread, e: Event)
    requires Good(x, n) && Enabled(n.s, t) && Plausible(n, e)
    ensures GoodOutcome(WireStep(x, n, t, e))
    ensures WireStep(x, n, t, e).Running? ==> Good(x, Next(x, n, t, e))
  {
    InputIsPossible(x, n, t, e);
    StepIsGood(n.s, t, InputOf(x, n, t, e));
    if WireStep(x, n, t, e).Running? {
      NextKeepsWires(x, n, t, e, Next(x, n, t, e));
    }
  }

  lemma NextKeepsWires(x: Library, n: World, t: Thread, e: Event, n': World)
    requires ConnectionsOk(n.s) && WiresOk(x, n) && Enabled(n.s, t) && Plausible(n, e)
    requires WireStep(x, n, t, e).Running? && n' == Next(x, n, t, e)
    ensures WiresOk(x, n')
  {
    match t
    case MainThread => MainKeepsWires(x, n, e, n');
    case WorkerThread(w) =>
      match n.s.workers[w].pc {
        case PoolScan => ScanKeepsWires(x, n, w, e, n');
        case Send => SendKeepsWires(x, n, w, e, n');
        case Receive => LookKeepsWires(x, n, w, e, n');
        case Fetch => FetchKeepsWires(x, n, w, e, n');
        case Put => PutKeepsWires(x, n, w, e, n');
        case _ => OtherStepsKeepWires(x, n, w, e, n');
      }
  }

  // What a worker knows of its answer

  /** No line with a status has arrived. */
  predicate NoStatus(x: Syntax, stream: seq<Byte>) {
    var end := FirstCrlf(stream);
    end.None? || x.status(stream[..end.value]).None? || x.status(stream[..end.value]).value == -1
  }

  /**
   * When a worker has its answer, the connection object says of all the bytes that have arrived since the request,
   * however they were cut into reads and whatever the other threads did, what the standard says of them.
   */
  lemma AnswersFollowTheStream(x: Library, n: World, w: nat)
    requires Good(x, n) && w < |n.s.workers| && Answered(n.s.workers[w])
    ensures var a := n.s.workers[w].conn;
      a in n.s.pool.heap && a in n.wires &&
      var h, wire := n.s.pool.heap[a], n.wires[a];
      && (h.code == -1 <==> NoStatus(x.syntax, wire.stream))
      && (wire.eof ==> (h.state == CLOSED <==> CompleteAtClose(x.syntax, wire.stream)))
      && (wire.eof ==> (h.state == BROKEN <==> !CompleteAtClose(x.syntax, wire.stream)))
      && (!wire.eof ==> (h.state == DONE <==> CompleteByLength(x.syntax, wire.stream)))
      && (!wire.eof && h.state != DONE ==> h.code == -1)
  {
    var a := n.s.workers[w].conn;
    assert OwnsSlot(n.s, w) && AnswerOk(x, n, a);
    var wire := n.wires[a];
    MissingStatus(x.syntax, wire.stream, wire.eof);
    CompletionFollowsTheStandard(x.syntax, wire.stream);
    if !wire.eof && n.s.pool.heap[a].state != DONE {
      OpenAnswer(x.syntax, wire.stream);
    }
  }

  lemma OpenAnswer(x: Syntax, stream: seq<Byte>)
    requires Consume(x, Append(SENT, stream), false).state.Finished()
    ensures Consume(x, Append(SENT, stream), false).state == DONE || Consume(x, Append(SENT, stream), false).code == -1
  {
    DrainNeverDone(x, Append(SENT, stream));
    if Consume(x, Append(SENT, stream), false).state == BROKEN {
      BrokenWhileOpen(x, stream);
    }
  }

  /** The worker t stands at this place. */
  predicate StandsAt(n: World, t: Thread, pc: Pc) {
    IsWorker(n, t) && n.s.workers[t.id].pc == pc
  }

  /** A request over a connection whose last answer, with status 200, ended with the stream. */
  predicate ReusesEnded(n: World, t: Thread) {
    && StandsAt(n, t, Pc.Send) && n.s.workers[t.id].conn in n.s.pool.heap
    && !n.s.pool.heap[n.s.workers[t.id].conn].state.REQUEST? && WireOf(n, t).eof
  }

  /** What is left of an unfinished answer when its complete lines are taken out leaves no room for another read. */
  predicate FillsBuffer(x: Library, n: World, t: Thread) {
    && StandsAt(n, t, Pc.Fetch)
    && |Consume(x.syntax, Whole(WireOf(n, t)), false).buf| >= 49 * BUFSIZ
  }

  /** An answer that has ended without a line with a status, after the locks were given up. */
  predicate EndsWithoutStatus(x: Library, n: World, t: Thread) {
    && StandsAt(n, t, Pc.Judge) && n.s.workers[t.id].needToRelock
    && NoStatus(x.syntax, WireOf(n, t).stream)
  }

  lemma ReusedWasEnded(x: Library, n: World, t: Thread)
    requires Good(x, n) && StandsAt(n, t, Pc.Send)
    ensures ReusesClosed(n.s, t) <==> ReusesEnded(n, t)
  {
    assert OwnsSlot(n.s, t.id);
    var a := n.s.workers[t.id].conn;
    assert a in n.s.pool.heap && Reusable(n.s.pool.heap[a]) && AnswerOk(x, n, a);
    if n.s.pool.heap[a].state.Finished() {
      var wire := n.wires[a];
      assert WireOf(n, t) == wire && IsAnswer(x, wire, n.s.pool.heap[a]);
      if !wire.eof {
        OpenAnswer(x.syntax, wire.stream);
      }
    }
  }

  lemma OverfullIsFilled(x: Library, n: World, t: Thread, e: Event)
    requires Good(x, n) && StandsAt(n, t, Pc.Fetch)
    ensures Overfull(n.s, t, InputOf(x, n, t, e)) <==> FillsBuffer(x, n, t)
  {
    assert TurnOk(x, n, t.id);
  }

  lemma LateHasNoStatus(x: Library, n: World, t: Thread)
    requires Good(x, n) && StandsAt(n, t, Pc.Judge)
    ensures EndsLate(n.s, t) <==> EndsWithoutStatus(x, n, t)
  {
    AnswersFollowTheStream(x, n, t.id);
  }

  /**
   * Exactly when each of the three assertions fails, in terms of what the server has sent. The buffer's assertion
   * cannot fail before 49 * BUFSIZ bytes of one answer have arrived.
   */
  lemma FailuresOnTheWire(x: Library, n: World, t: Thread, e: Event)
    requires Good(x, n) && Enabled(n.s, t) && Plausible(n, e)
    ensures WireStep(x, n, t, e) == Failed(BadState) <==> ReusesEnded(n, t)
    ensures WireStep(x, n, t, e) == Failed(BufferFull) <==> FillsBuffer(x, n, t)
    ensures WireStep(x, n, t, e) == Failed(LateError) <==> EndsWithoutStatus(x, n, t)
    ensures WireStep(x, n, t, e).Failed? ==> WireStep(x, n, t, e).why in {BadState, BufferFull, LateError}
    ensures FillsBuffer(x, n, t) ==> |WireOf(n, t).stream| >= 49 * BUFSIZ
  {
    InputIsPossible(x, n, t, e);
    FailuresExactly(n.s, t, InputOf(x, n, t, e));
    DrainShrinks(x.syntax, Whole(WireOf(n, t)));
    if IsWorker(n, t) {
      match n.s.workers[t.id].pc {
        case Send => ReusedWasEnded(x, n, t);
        case Fetch => OverfullIsFilled(x, n, t, e);
        case Judge => LateHasNoStatus(x, n, t);
        case _ =>
      }
    }
  }

  // Whole runs

  /** Happening k leads from the k-th world of the run to the next. */
  predicate Link(x: Library, run: seq<World>, hs: seq<Happening>, k: nat)
    requires k + 1 < |run| && k < |hs|
  {
    && Enabled(run[k].s, hs[k].thread) && Plausible(run[k], hs[k].event)
    && WireStep(x, run[k], hs[k].thread, hs[k].event).Running?
    && run[k + 1] == Next(x, run[k], hs[k].thread, hs[k].event)
  }

  predicate Trace(x: Library, n: World, run: seq<World>, hs: seq<Happening>, n': World) {
    && |run| == |hs| + 1 && run[0] == n && run[|hs|] == n'
    && (forall k :: 0 <= k < |hs| ==> Link(x, run, hs, k))
  }

  ghost predicate CanReach(x: Library, n: World, n': World) {
    exists run, hs :: Trace(x, n, run, hs, n')
  }

  /** A run from n ends the process in this way. */
  ghost predicate CanEnd(x: Library, n: World, r: Outcome) {
    exists n', t, e :: CanReach(x, n, n') && EndsIn(x, n', t, e, r)
  }

  ghost predicate EndsIn(x: Library, n: World, t: Thread, e: Event, r: Outcome) {
    Enabled(n.s, t) && Plausible(n, e) && WireStep(x, n, t, e) == r && !r.Running?
  }

  lemma RestOfTrace(x: Library, n: World, run: seq<World>, hs: seq<Happening>, n': World)
    requires Trace(x, n, run, hs, n') && hs != []
    ensures Link(x, run, hs, 0) && Trace(x, run[1], run[1..], hs[1..], n')
  {
    forall k | 0 <= k < |hs| - 1
      ensures Link(x, run[1..], hs[1..], k)
    {
      assert Link(x, run, hs, k + 1);
    }
  }

  lemma BootIsGood(x: Library, width: int, height: int)
    ensures Good(x, Boot(width, height))
  {
    InitialIsGood(width, height);
  }

  lemma {:induction false} TraceIsGood(x: Library, n: World, run: seq<World>, hs: seq<Happening>, n': World)
    requires Good(x, n) && Trace(x, n, run, hs, n')
    ensures Good(x, n')
    decreases |hs|
  {
    if hs != [] {
      RestOfTrace(x, n, run, hs, n');
      WireStepIsGood(x, n, hs[0].thread, hs[0].event);
      TraceIsGood(x, run[1], run[1..], hs[1..], n');
    }
  }

  /** The machine's side of a run. */
  function Choices(x: Library, run: seq<World>, hs: seq<Happening>): seq<Choice>
    requires |run| == |hs| + 1
  {
    seq(|hs|, k requires 0 <= k < |hs| => Choice(hs[k].thread, InputOf(x, run[k], hs[k].thread, hs[k].event)))
  }

  lemma StepThenPlay(s: State, first: Choice, s': State, rest: seq<Choice>, choices: seq<Choice>)
    requires Enabled(s, first.thread) && Possible(s, first.input)
    requires Step(s, first.thread, first.input) == Running(s') && Schedule(s', rest)
    requires choices == [first] + rest
    ensures Schedule(s, choices) && Play(s, choices) == Play(s', rest)
  {
    assert choices[0] == first && choices[1..] == rest;
  }

  lemma ChoicesOfRest(x: Library, run: seq<World>, hs: seq<Happening>, tail: seq<Choice>)
    requires |run| == |hs| + 1 && hs != []
    ensures Choices(x, run, hs) + tail ==
            [Choice(hs[0].thread, InputOf(x, run[0], hs[0].thread, hs[0].event))]
            + (Choices(x, run[1..], hs[1..]) + tail)
  {
  }

  /**
   * A run over the network is a run of the machine, whatever comes after it: what holds of all the machine's runs
   * holds of it.
   */
  lemma {:induction false} TraceIsPlayed(x: Library, n: World, run: seq<World>, hs: seq<Happening>, n': World,
                                         tail: seq<Choice>)
    requires Good(x, n) && Trace(x, n, run, hs, n') && Schedule(n'.s, tail)
    ensures Schedule(n.s, Choices(x, run, hs) + tail)
    ensures Play(n.s, Choices(x, run, hs) + tail) == Play(n'.s, tail)
    decreases |hs|
  {
    if hs == [] {
      assert Choices(x, run, hs) + tail == tail;
    } else {
      var t, e := hs[0].thread, hs[0].event;
      RestOfTrace(x, n, run, hs, n');
      InputIsPossible(x, n, t, e);
      WireStepIsGood(x, n, t, e);
      TraceIsPlayed(x, run[1], run[1..], hs[1..], n', tail);
      ChoicesOfRest(x, run, hs, tail);
      StepThenPlay(n.s, Choice(t, InputOf(x, n, t, e)), run[1].s, Choices(x, run[1..], hs[1..]) + tail,
                   Choices(x, run, hs) + tail);
    }
  }

  /** A way for the process to end over the network is one for the machine. */
  lemma EndIsPlayed(x: Library, n: World, r: Outcome) returns (choices: seq<Choice>)
    requires Good(x, n) && CanEnd(x, n, r)
    ensures Schedule(n.s, choices) && Play(n.s, choices) == r
  {
    var n', t, e :| CanReach(x, n, n') && EndsIn(x, n', t, e, r);
    var run, hs :| Trace(x, n, run, hs, n');
    TraceIsGood(x, n, run, hs, n');
    InputIsPossible(x, n', t, e);
    var last := [Choice(t, InputOf(x, n', t, e))];
    TraceIsPlayed(x, n, run, hs, n', last);
    choices := Choices(x, run, hs) + last;
  }

  /** From the start of the program, no run over any network ends in another assertion than the three. */
  lemma NoOtherFailure(x: Library, width: int, height: int, why: Failure)
    requires CanEnd(x, Boot(width, height), Failed(why))
    ensures why in {BadState, BufferFull, LateError}
  {
    var n', t, e :| CanReach(x, Boot(width, height), n') && EndsIn(x, n', t, e, Failed(why));
    var run, hs :| Trace(x, Boot(width, height), run, hs, n');
    BootIsGood(x, width, height);
    TraceIsGood(x, Boot(width, height), run, hs, n');
    FailuresOnTheWire(x, n', t, e);
  }

  /** The game over the network: every request asks for the point of the reflecting path that its ticket stands for. */
  lemma NetworkPlaysThePath(x: Library, width: int, height: int, n: World, k: nat)
    requires width >= 2 && height >= 2
    requires CanReach(x, Boot(width, height), n) && k < |n.s.sent|
    ensures n.s.sent[k].x == Wave(n.s.sent[k].ticket, width) && 0 <= n.s.sent[k].x < width
    ensures n.s.sent[k].y == Wave(n.s.sent[k].ticket, height) && 0 <= n.s.sent[k].y < height
  {
    var run, hs :| Trace(x, Boot(width, height), run, hs, n);
    BootIsGood(x, width, height);
    TraceIsPlayed(x, Boot(width, height), run, hs, n, []);
    EveryRunPlaysThePath(width, height, Choices(x, run, hs) + [], k);
  }
}
