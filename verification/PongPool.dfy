/** The shared connection pool of pong61: what its slots hold, and how a connection is taken and given back. */
module PongPool {
  import opened Wrappers

  const NCONNECTIONS: nat := 30

  datatype Status = UNINIT | VALID | INUSE

  /** A slot keeps its pointer after the connection behind it is closed. Zero is the null pointer. */
  datatype Slot = Slot(conn: nat, status: Status)

  /** Response parsing states; the last three are the negative ones. */
  datatype HttpState = REQUEST | INITIAL | HEADERS | BODY | DONE | CLOSED | BROKEN {
    predicate Finished() { DONE? || CLOSED? || BROKEN? }
  }

  /** The parts of an `http_connection` that the pool and the workers look at. */
  datatype Http = Http(state: HttpState, code: int)

  /** New, or kept open after an answer with status 200. */
  predicate Reusable(h: Http) {
    h.state.REQUEST? || (h.state.Finished() && h.code == 200)
  }

  /** The slots, and the connection objects that are allocated, by address. */
  datatype Pool = Pool(slots: seq<Slot>, heap: map<nat, Http>)

  // The two searches

  function FirstWithStatus(slots: seq<Slot>, status: Status, from: nat := 0): (r: Option<nat>)
    requires from <= |slots|
    ensures r.Some? ==> from <= r.value < |slots| && slots[r.value].status == status
    ensures forall i :: from <= i < (if r.Some? then r.value else |slots|) ==> slots[i].status != status
    decreases |slots| - from
  {
    if from == |slots| then None else
    if slots[from].status == status then Some(from) else FirstWithStatus(slots, status, from + 1)
  }

  function FirstWithConn(slots: seq<Slot>, conn: nat, from: nat := 0): (r: Option<nat>)
    requires from <= |slots|
    ensures r.Some? ==> from <= r.value < |slots| && slots[r.value].conn == conn
    ensures forall i :: from <= i < (if r.Some? then r.value else |slots|) ==> slots[i].conn != conn
    decreases |slots| - from
  {
    if from == |slots| then None else
    if slots[from].conn == conn then Some(from) else FirstWithConn(slots, conn, from + 1)
  }

  // getConn and releaseConn

  /** What `getConn` leaves behind and the slot it picks. `address` is the address of the object that malloc returns. */
  function Take(p: Pool, address: nat): Option<(Pool, nat)> {
    match FirstWithStatus(p.slots, VALID)
    case Some(i) => Some((p.(slots := p.slots[i := p.slots[i].(status := INUSE)]), i))
    case None =>
      match FirstWithStatus(p.slots, UNINIT)
      case Some(i) =>
        Some((Pool(p.slots[i := Slot(address, INUSE)], p.heap[address := Http(REQUEST, 0)]), i))
      case None => None
  }

  /** What `releaseConn` leaves behind; nothing if no slot has the pointer, where the original indexes with -1. */
  function Give(p: Pool, conn: nat): Option<Pool>
    requires conn in p.heap
  {
    match FirstWithConn(p.slots, conn)
    case None => None
    case Some(i) =>
      if p.heap[conn].code == 200 then Some(p.(slots := p.slots[i := Slot(conn, VALID)])) else
      Some(Pool(p.slots[i := Slot(conn, UNINIT)], p.heap - {conn}))
  }

  // The invariant

  predicate Occupied(s: Slot) { s.status != UNINIT }

  /** A slot in use or ready holds a live connection, and no lower slot carries the same pointer, live or stale. */
  ghost predicate SlotOk(p: Pool, i: nat)
    requires i < |p.slots|
  {
    Occupied(p.slots[i]) ==>
      && p.slots[i].conn in p.heap
      && (forall j :: 0 <= j < i ==> p.slots[j].conn != p.slots[i].conn)
      && (p.slots[i].status.VALID? ==> p.heap[p.slots[i].conn].code == 200
                                       && p.heap[p.slots[i].conn].state.Finished())
  }

  ghost predicate InASlot(p: Pool, conn: nat) {
    exists i :: 0 <= i < |p.slots| && Occupied(p.slots[i]) && p.slots[i].conn == conn
  }

  ghost predicate PoolOk(p: Pool) {
    && |p.slots| == NCONNECTIONS
    && (forall i :: 0 <= i < |p.slots| ==> SlotOk(p, i))
    && (forall c :: c in p.heap ==> InASlot(p, c))
  }

  /**
   * Whatever address malloc picks, stale pointers included, a taken slot ends up as the only one with its connection; a
   * new connection is opened only if there is none to reuse.
   */
  lemma TakeKeepsPool(p: Pool, address: nat)
    requires PoolOk(p) && address !in p.heap
    requires Take(p, address).Some?
    ensures var (p', i) := Take(p, address).value;
      && PoolOk(p')
      && i < |p.slots| && p.slots[i].status != INUSE
      && (p.slots[i].status == UNINIT ==> forall j :: 0 <= j < |p.slots| ==> p.slots[j].status != VALID)
      && p'.slots[i].status == INUSE && p'.slots[i].conn in p'.heap
      && Reusable(p'.heap[p'.slots[i].conn])
      && (forall j :: 0 <= j < |p.slots| && j != i ==> p'.slots[j] == p.slots[j])
      && (forall c :: c in p.heap ==> c in p'.heap && p'.heap[c] == p.heap[c])
      && (p.slots[i].status == VALID ==> p'.slots[i].conn == p.slots[i].conn && p'.heap == p.heap)
  {
    var (p', i) := Take(p, address).value;
    assert SlotOk(p, i);
    forall j | 0 <= j < |p'.slots| ensures SlotOk(p', j) {
      assert SlotOk(p, j);
      assert p'.slots[j] == if j == i then p'.slots[i] else p.slots[j];
      if j == i && p.slots[i].status == UNINIT {
        forall k | 0 <= k < i ensures p'.slots[k].conn != address {
          assert SlotOk(p, k);
        }
      }
    }
    forall c | c in p'.heap ensures InASlot(p', c) {
      if c in p.heap {
        var k :| 0 <= k < |p.slots| && Occupied(p.slots[k]) && p.slots[k].conn == c;
        assert Occupied(p'.slots[k]) && p'.slots[k].conn == c;
      } else {
        assert Occupied(p'.slots[i]) && p'.slots[i].conn == c;
      }
    }
  }

  /** A connection in use is found in its own slot, whatever stale pointers the other slots carry. */
  lemma SlotIsFound(p: Pool, i: nat)
    requires PoolOk(p) && i < |p.slots| && Occupied(p.slots[i])
    ensures FirstWithConn(p.slots, p.slots[i].conn) == Some(i)
  {
    assert SlotOk(p, i);
    var r := FirstWithConn(p.slots, p.slots[i].conn);
    assert r.Some? && r.value <= i;
  }

  /** Giving a connection back touches its own slot alone, and frees the object exactly when it cannot be reused. */
  lemma GiveKeepsPool(p: Pool, i: nat)
    requires PoolOk(p) && i < |p.slots| && p.slots[i].status == INUSE
    requires p.slots[i].conn in p.heap && p.heap[p.slots[i].conn].state.Finished()
    ensures var conn := p.slots[i].conn;
      && Give(p, conn).Some?
      && var p' := Give(p, conn).value;
      && PoolOk(p')
      && p'.slots[i].status == (if p.heap[conn].code == 200 then VALID else UNINIT)
      && (forall j :: 0 <= j < |p.slots| && j != i ==> p'.slots[j] == p.slots[j])
      && (conn in p'.heap <==> p.heap[conn].code == 200)
      && (forall c :: c in p.heap && c != conn ==> c in p'.heap && p'.heap[c] == p.heap[c])
  {
    SlotIsFound(p, i);
    var conn := p.slots[i].conn;
    var p' := Give(p, conn).value;
    assert SlotOk(p, i);
    forall j | 0 <= j < |p'.slots| ensures SlotOk(p', j) {
      assert SlotOk(p, j);
      assert p'.slots[j] == if j == i then p'.slots[i] else p.slots[j];
      if j > i && Occupied(p.slots[j]) {
        assert p.slots[j].conn != conn;
      }
    }
    forall c | c in p'.heap ensures InASlot(p', c) {
      var k :| 0 <= k < |p.slots| && Occupied(p.slots[k]) && p.slots[k].conn == c;
      assert Occupied(p'.slots[k]) && p'.slots[k].conn == c;
    }
  }

  /** No slot is free only if all are in use. */
  lemma FullMeansInUse(p: Pool, address: nat)
    requires Take(p, address).None?
    ensures forall i :: 0 <= i < |p.slots| ==> p.slots[i].status == INUSE
  {
  }

  /** The pool as the program keeps it: an array that is searched and updated in place. */
  class SharedConnections {
    const slots: array<Slot>
    var heap: map<nat, Http>

    function Value(): Pool
      reads this, slots
    {
      Pool(slots[..], heap)
    }

    constructor ()
      ensures fresh(slots) && PoolOk(Value())
      ensures forall i :: 0 <= i < NCONNECTIONS ==> slots[i] == Slot(0, UNINIT)
      ensures heap == map[]
    {
      slots := new Slot[NCONNECTIONS](_ => Slot(0, UNINIT));
      heap := map[];
    }

    method SlotOfConnection(conn: nat) returns (connection: int)
      ensures connection == match FirstWithConn(slots[..], conn) case Some(i) => i case None => -1
    {
      connection := -1;
      var i := 0;
      while i < slots.Length
        invariant 0 <= i <= slots.Length
        invariant FirstWithConn(slots[..], conn) == FirstWithConn(slots[..], conn, i)
      {
        if slots[i].conn == conn {
          connection := i;
          return;
        }
        i := i + 1;
      }
    }

    method ConnectionSlotWithStatus(status: Status) returns (connection: int)
      ensures connection == match FirstWithStatus(slots[..], status) case Some(i) => i case None => -1
    {
      connection := -1;
      var i := 0;
      while i < slots.Length
        invariant 0 <= i <= slots.Length
        invariant FirstWithStatus(slots[..], status) == FirstWithStatus(slots[..], status, i)
      {
        if slots[i].status == status {
          connection := i;
          return;
        }
        i := i + 1;
      }
    }

    /** No result is the failed assertion on a full pool. */
    method GetConn(address: nat) returns (conn: Option<nat>)
      modifies this, slots
      ensures match Take(old(Value()), address)
        case Some(r) => Value() == r.0 && conn == Some(r.0.slots[r.1].conn)
        case None => Value() == old(Value()) && conn == None
    {
      var connectionToReuse := ConnectionSlotWithStatus(VALID);
      if connectionToReuse != -1 {
        slots[connectionToReuse] := slots[connectionToReuse].(status := INUSE);
        return Some(slots[connectionToReuse].conn);
      }
      var freeSlot := ConnectionSlotWithStatus(UNINIT);
      if freeSlot != -1 {
        slots[freeSlot] := slots[freeSlot].(status := INUSE);
        heap := heap[address := Http(REQUEST, 0)];
        slots[freeSlot] := slots[freeSlot].(conn := address);
        return Some(slots[freeSlot].conn);
      }
      conn := None;
    }

    method ReleaseConn(conn: nat)
      requires conn in heap && FirstWithConn(slots[..], conn).Some?
      modifies this, slots
      ensures Give(old(Value()), conn) == Some(Value())
    {
      var slot := SlotOfConnection(conn);
      if heap[conn].code == 200 {
        slots[slot] := slots[slot].(status := VALID);
      } else {
        slots[slot] := slots[slot].(status := UNINIT);
        heap := heap - {conn};
      }
    }
  }
}
