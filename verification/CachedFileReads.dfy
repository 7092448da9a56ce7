/** Block reads: what io61_read returns when it returns, and exactly when it does. */
module CachedFileReads {
  import opened Wrappers
  import opened Collections
  import opened CachedFile
  import opened CachedFileProofs

  /** The first turn of io61_read's loop is about to start with the current slot. */
  function Start(r: Reader, sz: nat): Progress {
    Progress(r, [], sz == 0)
  }

  /** When there is nothing to prepare, io61_read returns 0, as a reader at end of file should. */
  lemma NothingToRead(r: Reader, sz: nat)
    requires Inv(r) && !Prepare(r).1
    ensures SlowRead(r.file, Position(r), sz) == []
    ensures Inv(Prepare(r).0) && Position(Prepare(r).0) == Position(r)
  {
    PrepareOk(r);
    SlowReadIsSlice(r.file, Position(r), sz);
  }

  lemma StartCopies(r: Reader, sz: nat)
    requires Inv(r) && Prepare(r).1
    ensures var r1 := Prepare(r).0;
      && r1.current >= 0 && r1.file == r.file && Position(r1) == Position(r)
      && Copying(Start(r1, sz), r1.current, Position(r), sz)
      && r1.slots[r1.current].offset < r1.slots[r1.current].bufsize
  {
    PrepareOk(r);
    assert SlotOk(r.file, Prepare(r).0.slots[Prepare(r).0.current]);
  }

  /**
   * Whenever io61_read returns, after however many turns, evictions and short preads, it has read exactly what the
   * unbuffered reader reads, short only at end of file, and the reader stands where that one stands.
   */
  lemma ReadAgrees(r: Reader, sz: nat, k: nat)
    requires Inv(r) && Prepare(r).1
    ensures var r1 := Prepare(r).0;
      var p := Turns(Start(r1, sz), r1.current, sz, k);
      p.done ==>
        && Inv(p.r) && p.out == SlowRead(r.file, Position(r), sz)
        && Position(p.r) == Position(r) + |p.out| && p.r.file == r.file
  {
    var r1 := Prepare(r).0;
    StartCopies(r, sz);
    TurnsCopy(Start(r1, sz), r1.current, Position(r), sz, k, Turns(Start(r1, sz), r1.current, sz, k));
    SlowReadIsSlice(r.file, Position(r), sz);
  }

  // Which slot is evicted

  /** Slot j will be filled before slot l is. */
  predicate Before(slots: seq<Slot>, j: nat, l: nat)
    requires j < |slots| && l < |slots|
  {
    && j != l
    && (!slots[j].active || slots[j].lifetime > slots[l].lifetime
        || (slots[j].lifetime == slots[l].lifetime && j < l))
  }

  ghost function Ahead(slots: seq<Slot>, l: nat): (s: set<nat>)
    requires l < |slots|
  {
    set j: nat | j < |slots| && Before(slots, j, l)
  }

  /** What freeCache's loop returns from slot i on. */
  lemma {:induction false} VictimFromIs(slots: seq<Slot>, i: nat, oldest: nat, maxLifetime: int)
    requires i <= |slots| && oldest < |slots|
    ensures var v := VictimFrom(slots, i, oldest, maxLifetime);
      if exists k :: i <= k < |slots| && !slots[k].active then i <= v && !slots[v].active
      else if exists k :: i <= k < |slots| && slots[k].lifetime > maxLifetime then
        && i <= v && slots[v].lifetime > maxLifetime
        && (forall k :: i <= k < |slots| ==> slots[k].lifetime <= slots[v].lifetime)
        && (forall k :: i <= k < v ==> slots[k].lifetime < slots[v].lifetime)
      else v == oldest
    decreases |slots| - i
  {
    if i < |slots| && slots[i].active {
      if slots[i].lifetime > maxLifetime {
        VictimFromIs(slots, i + 1, i, slots[i].lifetime);
      } else {
        VictimFromIs(slots, i + 1, oldest, maxLifetime);
      }
    }
  }

  /** Slot l is evicted exactly when no other slot is ahead of it. */
  lemma VictimIs(slots: seq<Slot>, l: nat)
    requires l < |slots| && slots[l].active && (forall i :: 0 <= i < |slots| ==> slots[i].lifetime >= 0)
    ensures Victim(slots) == l <==> Ahead(slots, l) == {}
    ensures Victim(slots) != l ==> Victim(slots) in Ahead(slots, l)
  {
    VictimFromIs(slots, 0, 0, -1);
    var v := Victim(slots);
    assert slots[l].lifetime > -1;
    if v != l {
      assert Before(slots, v, l);
      assert v in Ahead(slots, l);
    } else {
      assert forall j :: 0 <= j < |slots| ==> !Before(slots, j, l);
    }
  }

  // Turns with nothing left in the slot

  /** Slot l is used up, but the read is not finished and the file goes on. */
  predicate UsedUp(p: Progress, l: nat, start: nat, sz: nat) {
    Copying(p, l, start, sz) && !p.done && p.r.slots[l].offset == p.r.slots[l].bufsize
  }

  /** A turn with nothing left to copy only builds a slot for the bytes that come next. */
  lemma UsedUpTurn(p: Progress, l: nat, start: nat, sz: nat)
    requires UsedUp(p, l, start, sz)
    ensures Turn(p, l, sz) == Progress(Build(p.r, start + |p.out|).0, p.out, false)
    ensures Build(p.r, start + |p.out|).1
  {
    var slot := p.r.slots[l];
    assert SlotOk(p.r.file, slot);
    assert SetOffset(p.r, l, slot.offset) == p.r by {
      assert p.r.slots[l := slot.(offset := slot.offset)] == p.r.slots;
    }
    assert p.out + [] == p.out;
    BuildOk(p.r, start + |p.out|);
  }

  /** Slot l has its turn before it is too young: it is slot 0, or it has aged. */
  predicate Passable(p: Progress, l: nat)
    requires WellFormed(p.r) && l < NCACHES
  {
    l == 0 || p.r.slots[l].lifetime > 0
  }

  lemma AheadAfterBuild(r: Reader, pos: nat, l: nat)
    requires Inv(r) && l < NCACHES && r.slots[l].active && pos < |r.file|
    requires l == 0 || r.slots[l].lifetime > 0
    ensures var r' := Build(r, pos).0;
      if Ahead(r.slots, l) == {} then Victim(r.slots) == l
      else Victim(r.slots) != l && |Ahead(r'.slots, l)| == |Ahead(r.slots, l)| - 1
  {
    assert forall i :: 0 <= i < NCACHES ==> SlotOk(r.file, r.slots[i]);
    VictimIs(r.slots, l);
    BuildOk(r, pos);
    var r' := Build(r, pos).0;
    var v := Victim(r.slots);
    if v != l {
      assert !Before(r'.slots, v, l);
      forall j | 0 <= j < NCACHES && j != v
        ensures Before(r'.slots, j, l) == Before(r.slots, j, l)
      {
      }
      assert Ahead(r'.slots, l) == Ahead(r.slots, l) - {v};
    }
  }

  /** A measure that every turn makes smaller when the copying slot is slot 0. */
  ghost function Remaining(p: Progress, sz: nat): nat
    requires WellFormed(p.r) && |p.out| <= sz
  {
    if p.done then 0 else
    (sz - |p.out|) * (NCACHES + 2)
    + (if p.r.slots[0].offset == p.r.slots[0].bufsize then |Ahead(p.r.slots, 0)| + 1 else 0)
  }

  lemma AheadIsSmall(slots: seq<Slot>, l: nat)
    requires l < |slots| == NCACHES
    ensures |Ahead(slots, l)| <= NCACHES
  {
    BelowSize(Ahead(slots, l), NCACHES);
  }

  lemma TurnCopiesMore(p: Progress, start: nat, sz: nat, p': Progress)
    requires Copying(p, 0, start, sz) && !p.done && !UsedUp(p, 0, start, sz) && p' == Turn(p, 0, sz)
    ensures |p'.out| > |p.out|
  {
    assert SlotOk(p.r.file, p.r.slots[0]);
  }

  lemma TurnShrinks(p: Progress, start: nat, sz: nat)
    requires Copying(p, 0, start, sz) && !p.done
    ensures Copying(Turn(p, 0, sz), 0, start, sz)
    ensures Remaining(Turn(p, 0, sz), sz) < Remaining(p, sz)
  {
    TurnCopies(p, 0, start, sz);
    var p' := Turn(p, 0, sz);
    AheadIsSmall(p'.r.slots, 0);
    if UsedUp(p, 0, start, sz) {
      UsedUpTurn(p, 0, start, sz);
      AheadAfterBuild(p.r, start + |p.out|, 0);
      BuildOk(p.r, start + |p.out|);
    } else {
      TurnCopiesMore(p, start, sz, p');
      MoreLess(sz - |p'.out|, sz - |p.out|);
    }
  }

  lemma MoreLess(a: nat, b: nat)
    requires a < b
    ensures a * (NCACHES + 2) + NCACHES + 1 < b * (NCACHES + 2)
  {
  }

  lemma {:induction false} DoneStays(p: Progress, l: nat, sz: nat, k: nat)
    requires WellFormed(p.r) && l < NCACHES && p.done
    ensures Turns(p, l, sz, k).done
    decreases k
  {
    if k != 0 {
      DoneStays(Turn(p, l, sz), l, sz, k - 1);
    }
  }

  lemma {:induction false} DoneIsFinal(p: Progress, l: nat, sz: nat, k: nat)
    requires WellFormed(p.r) && l < NCACHES && p.done
    ensures Turns(p, l, sz, k) == p
    decreases k
  {
    if k != 0 {
      DoneIsFinal(p, l, sz, k - 1);
    }
  }

  /** Copying from slot 0 always comes to an end, after a number of turns that is known beforehand. */
  lemma {:induction false} FirstSlotTerminates(p: Progress, start: nat, sz: nat, k: nat)
    requires Copying(p, 0, start, sz) && k >= Remaining(p, sz)
    ensures Turns(p, 0, sz, k).done
    decreases k
  {
    if p.done {
      DoneStays(p, 0, sz, k);
    } else {
      TurnShrinks(p, start, sz);
      FirstSlotTerminates(Turn(p, 0, sz), start, sz, k - 1);
    }
  }

  // Other slots

  ghost predicate Terminates(p: Progress, l: nat, sz: nat)
    requires WellFormed(p.r) && l < NCACHES
  {
    exists k :: Turns(p, l, sz, k).done
  }

  /** A used-up slot other than slot 0 that has not aged is never refilled: the loop goes round for ever. */
  lemma {:induction false} StuckForEver(p: Progress, l: nat, start: nat, sz: nat, k: nat)
    requires UsedUp(p, l, start, sz) && !Passable(p, l)
    ensures !Turns(p, l, sz, k).done
    decreases k
  {
    if k != 0 {
      assert forall i :: 0 <= i < NCACHES ==> SlotOk(p.r.file, p.r.slots[i]);
      VictimIs(p.r.slots, l);
      assert Before(p.r.slots, 0, l);
      assert 0 in Ahead(p.r.slots, l);
      UsedUpTurn(p, l, start, sz);
      TurnCopies(p, l, start, sz);
      BuildOk(p.r, start + |p.out|);
      StuckForEver(Turn(p, l, sz), l, start, sz, k - 1);
    }
  }

  /** What pread returns at pos when m more calls have been made. */
  function CountAfter(r: Reader, m: nat, pos: nat): nat {
    PreadCount(r.(calls := r.calls + m), pos)
  }

  /** Slot l has been filled by a pread of n bytes at pos, and nothing of that has been passed on. */
  predicate FilledWith(slot: Slot, pos: nat, n: nat) {
    slot.active && slot.pos == pos && slot.offset == 0 && slot.bufsize == n && slot.lifetime == 0
  }

  lemma CountLater(r: Reader, r': Reader, m: nat, m': nat, pos: nat)
    requires r'.file == r.file && r'.short == r.short && r'.calls + m' == r.calls + m
    ensures CountAfter(r', m', pos) == CountAfter(r, m, pos)
  {
  }

  /** One turn with a used-up slot: it is refilled if no slot is ahead of it, and otherwise one slot less is. */
  lemma UsedUpStep(p: Progress, l: nat, start: nat, sz: nat, pos: nat, m: nat, p1: Progress)
    requires UsedUp(p, l, start, sz) && Passable(p, l) && pos == start + |p.out| && m == |Ahead(p.r.slots, l)|
    requires p1 == Turn(p, l, sz)
    ensures Copying(p1, l, start, sz) && !p1.done && p1.out == p.out
    ensures p1.r.file == p.r.file && p1.r.short == p.r.short && p1.r.calls == p.r.calls + 1
    ensures if m == 0 then FilledWith(p1.r.slots[l], pos, PreadCount(p.r, pos))
            else UsedUp(p1, l, start, sz) && Passable(p1, l) && |Ahead(p1.r.slots, l)| == m - 1
  {
    UsedUpTurn(p, l, start, sz);
    TurnCopies(p, l, start, sz);
    AheadAfterBuild(p.r, pos, l);
    BuildOk(p.r, pos);
  }

  /**
   * A used-up slot that can be evicted is refilled with what comes next in the file, by the pread after those for the
   * slots ahead of it.
   */
  lemma {:induction false} IsRefilled(p: Progress, l: nat, start: nat, sz: nat, pos: nat, m: nat, n: nat, k: nat,
                                      q: Progress)
    requires UsedUp(p, l, start, sz) && Passable(p, l) && pos == start + |p.out| && m == |Ahead(p.r.slots, l)|
    requires n == CountAfter(p.r, m, pos) && k == m + 1 && q == Turns(p, l, sz, k)
    ensures Copying(q, l, start, sz) && !q.done && q.out == p.out && q.r.file == p.r.file
    ensures FilledWith(q.r.slots[l], pos, n)
    decreases m
  {
    var p1 := Turn(p, l, sz);
    TurnsUnfold(p, l, sz, k, m, p1);
    UsedUpStep(p, l, start, sz, pos, m, p1);
    if m == 0 {
      assert p.r.(calls := p.r.calls + 0) == p.r;
    } else {
      CountLater(p.r, p1.r, m, m - 1, pos);
      IsRefilled(p1, l, start, sz, pos, m - 1, n, m, q);
    }
  }

  /** The rest of the read needs no more than slot l holds, or the file ends with it. */
  predicate Fits(p: Progress, l: nat, sz: nat)
    requires WellFormed(p.r) && l < NCACHES
  {
    var slot := p.r.slots[l];
    sz - |p.out| <= slot.bufsize - slot.offset || slot.pos + slot.bufsize >= |p.r.file|
  }

  /** Slot l has just been filled. */
  predicate Fresh(p: Progress, l: nat)
    requires WellFormed(p.r) && l < NCACHES
  {
    p.r.slots[l].offset == 0 < p.r.slots[l].bufsize && p.r.slots[l].lifetime == 0
  }

  /** The first turn finishes the read if it fits; otherwise it uses up the slot, and may refill it at once. */
  lemma FirstTurn(p: Progress, l: nat, start: nat, sz: nat)
    requires Copying(p, l, start, sz) && !p.done && p.r.slots[l].offset < p.r.slots[l].bufsize
    ensures var p1 := Turn(p, l, sz);
      && Copying(p1, l, start, sz) && p1.done == Fits(p, l, sz)
      && (!p1.done ==>
           if Passable(p, l) then Fresh(p1, l) || (UsedUp(p1, l, start, sz) && Passable(p1, l))
           else UsedUp(p1, l, start, sz) && !Passable(p1, l))
  {
    TurnCopies(p, l, start, sz);
    assert SlotOk(p.r.file, p.r.slots[l]);
    var r1 := SetOffset(p.r, l, p.r.slots[l].bufsize);
    assert forall i :: 0 <= i < NCACHES ==> SlotOk(p.r.file, p.r.slots[i]);
    VictimIs(r1.slots, l);
    if !Passable(p, l) {
      assert Before(r1.slots, 0, l);
      assert 0 in Ahead(r1.slots, l);
    }
  }

  lemma {:induction false} TurnsCompose(p: Progress, l: nat, sz: nat, k: nat, m: nat)
    requires WellFormed(p.r) && l < NCACHES
    ensures Turns(p, l, sz, k + m) == Turns(Turns(p, l, sz, k), l, sz, m)
    decreases k
  {
    if k != 0 {
      TurnsCompose(Turn(p, l, sz), l, sz, k - 1, m);
    }
  }

  /** Whether a read terminates can be told from any later point of it. */
  lemma TerminatesLater(p: Progress, l: nat, sz: nat, k: nat, q: Progress)
    requires WellFormed(p.r) && l < NCACHES && q == Turns(p, l, sz, k)
    ensures Terminates(p, l, sz) <==> Terminates(q, l, sz)
  {
    if m :| Turns(p, l, sz, m).done {
      TurnsCompose(p, l, sz, m, k);
      DoneStays(Turns(p, l, sz, m), l, sz, k);
      TurnsCompose(p, l, sz, k, m);
      assert Turns(q, l, sz, m).done;
    }
    if m :| Turns(q, l, sz, m).done {
      TurnsCompose(p, l, sz, k, m);
      assert Turns(p, l, sz, k + m).done;
    }
  }

  /** Starting from slot 0, io61_read always returns. */
  lemma TerminatesFromFirstSlot(p: Progress, start: nat, sz: nat)
    requires Copying(p, 0, start, sz)
    ensures Terminates(p, 0, sz)
  {
    FirstSlotTerminates(p, start, sz, Remaining(p, sz));
  }

  /**
   * Starting from any other slot that has not aged, io61_read returns exactly if the read fits: crossing the end of
   * the slot, with more of the file to come, is never possible.
   */
  lemma TerminatesUnaged(p: Progress, l: nat, start: nat, sz: nat)
    requires Copying(p, l, start, sz) && !p.done && p.r.slots[l].offset < p.r.slots[l].bufsize
    requires !Passable(p, l)
    ensures Terminates(p, l, sz) <==> Fits(p, l, sz)
  {
    var p1 := Turn(p, l, sz);
    FirstTurn(p, l, start, sz);
    assert Turns(p, l, sz, 1) == Turns(p1, l, sz, 0) == p1;
    if !Fits(p, l, sz) {
      TerminatesLater(p, l, sz, 1, p1);
      forall k: nat
        ensures !Turns(p1, l, sz, k).done
      {
        StuckForEver(p1, l, start, sz, k);
      }
    }
  }

  /** A read that does not fit first uses up the slot. */
  lemma UsesUp(p: Progress, l: nat, start: nat, sz: nat) returns (p0: Progress)
    requires Copying(p, l, start, sz) && !p.done && p.r.slots[l].offset < p.r.slots[l].bufsize && !Fits(p, l, sz)
    ensures UsedUp(p0, l, start, sz) && Turn(p0, l, sz) == Turn(p, l, sz)
    ensures start + |p0.out| == p.r.slots[l].pos + p.r.slots[l].bufsize
    ensures |p0.out| == |p.out| + (p.r.slots[l].bufsize - p.r.slots[l].offset)
    ensures p0.r.file == p.r.file && p0.r.short == p.r.short && p0.r.calls == p.r.calls
    ensures Ahead(p0.r.slots, l) == Ahead(p.r.slots, l) && p0.r.slots[l].lifetime == p.r.slots[l].lifetime
  {
    assert SlotOk(p.r.file, p.r.slots[l]);
    p0 := Copied(p, l, sz);
    CopyPart(p, l, start, sz, p0);
    assert forall j :: 0 <= j < NCACHES ==> Before(p0.r.slots, j, l) == Before(p.r.slots, j, l);
    UsedUpTurn(p0, l, start, sz);
  }

  /** A read that fits is finished by the first turn. */
  lemma FitsTerminates(p: Progress, l: nat, start: nat, sz: nat)
    requires Copying(p, l, start, sz) && !p.done && p.r.slots[l].offset < p.r.slots[l].bufsize && Fits(p, l, sz)
    ensures Terminates(p, l, sz)
  {
    var p1 := Turn(p, l, sz);
    FirstTurn(p, l, start, sz);
    TurnsUnfold(p, l, sz, 1, 0, p1);
    assert Turns(p, l, sz, 1).done;
  }

  lemma SameFirstTurn(p: Progress, p0: Progress, l: nat, sz: nat, m: nat, q: Progress)
    requires WellFormed(p.r) && WellFormed(p0.r) && l < NCACHES && Turn(p0, l, sz) == Turn(p, l, sz)
    requires q == Turns(p, l, sz, m + 1)
    ensures q == Turns(p0, l, sz, m + 1)
  {
  }

  /** Otherwise, if the slot can be evicted, it is refilled when all slots ahead of it have been. */
  lemma CrossesOnce(p: Progress, l: nat, start: nat, sz: nat, end: nat, left: nat, m: nat, n: nat, q: Progress)
    requires Copying(p, l, start, sz) && !p.done && p.r.slots[l].offset < p.r.slots[l].bufsize && !Fits(p, l, sz)
    requires Passable(p, l) && m == |Ahead(p.r.slots, l)| && q == Turns(p, l, sz, m + 1)
    requires end == p.r.slots[l].pos + p.r.slots[l].bufsize && left == p.r.slots[l].bufsize - p.r.slots[l].offset
    requires n == CountAfter(p.r, m, end)
    ensures Copying(q, l, start, sz) && !q.done && |q.out| == |p.out| + left && q.r.file == p.r.file
    ensures FilledWith(q.r.slots[l], end, n)
  {
    var p0 := UsesUp(p, l, start, sz);
    SameFirstTurn(p, p0, l, sz, m, q);
    CountLater(p.r, p0.r, m, m, end);
    IsRefilled(p0, l, start, sz, end, m, n, m + 1, q);
  }

  /**
   * Starting from another slot that has aged, io61_read returns exactly if the read needs no more than what the slot
   * still holds and one more pread yields, or the file ends with that. The pread is the one after those for the slots
   * that are to be evicted earlier.
   */
  lemma TerminatesAged(p: Progress, l: nat, start: nat, sz: nat, end: nat, left: nat, n: nat)
    requires Copying(p, l, start, sz) && !p.done && p.r.slots[l].offset < p.r.slots[l].bufsize
    requires l != 0 && p.r.slots[l].lifetime > 0
    requires end == p.r.slots[l].pos + p.r.slots[l].bufsize && left == p.r.slots[l].bufsize - p.r.slots[l].offset
    requires n == CountAfter(p.r, |Ahead(p.r.slots, l)|, end)
    ensures Terminates(p, l, sz) <==> sz - |p.out| <= left + n || end + n >= |p.r.file|
  {
    if Fits(p, l, sz) {
      FitsTerminates(p, l, start, sz);
    } else {
      var m := |Ahead(p.r.slots, l)|;
      var q := Turns(p, l, sz, m + 1);
      CrossesOnce(p, l, start, sz, end, left, m, n, q);
      TerminatesLater(p, l, sz, m + 1, q);
      FilledFits(q, l, start, sz, end, n);
    }
  }

  /** From a slot that has just been filled the rest of the read must fit. */
  lemma FilledFits(q: Progress, l: nat, start: nat, sz: nat, end: nat, n: nat)
    requires Copying(q, l, start, sz) && !q.done && l != 0 && FilledWith(q.r.slots[l], end, n)
    ensures Terminates(q, l, sz) <==> sz - |q.out| <= n || end + n >= |q.r.file|
  {
    assert SlotOk(q.r.file, q.r.slots[l]);
    TerminatesUnaged(q, l, start, sz);
  }

  /** When pread always returns as much as it can, that is one more page. */
  lemma TerminatesAgedFullPages(p: Progress, l: nat, start: nat, sz: nat, end: nat, left: nat)
    requires Copying(p, l, start, sz) && !p.done && p.r.slots[l].offset < p.r.slots[l].bufsize
    requires l != 0 && p.r.slots[l].lifetime > 0 && forall i: nat :: p.r.short(i) >= PAGESIZE
    requires end == p.r.slots[l].pos + p.r.slots[l].bufsize && left == p.r.slots[l].bufsize - p.r.slots[l].offset
    ensures Terminates(p, l, sz) <==> sz - |p.out| <= left + PAGESIZE || end + PAGESIZE >= |p.r.file|
  {
    var n := CountAfter(p.r, |Ahead(p.r.slots, l)|, end);
    assert p.r.short(p.r.calls + |Ahead(p.r.slots, l)|) >= PAGESIZE;
    TerminatesAged(p, l, start, sz, end, left, n);
  }

  // A read that never returns

  /** The file after its first page has been read as one block, all preads being as long as they can be. */
  lemma OnePageRead(file: seq<Byte>, short: nat -> nat) returns (r: Reader)
    requires |file| > 2 * PAGESIZE && forall n: nat :: short(n) >= PAGESIZE
    ensures var r0 := Prepare(Opened(file, short)).0;
      r0.current == 0 && Turns(Start(r0, PAGESIZE), 0, PAGESIZE, 1) == Progress(r, file[..PAGESIZE], true)
    ensures Inv(r) && r.current == 1 && Prepare(r) == (r, true)
    ensures r.slots[1] == Slot(true, file[PAGESIZE..2 * PAGESIZE], PAGESIZE, 0, PAGESIZE, 0) && r.file == file
    ensures r.slots[0] == Slot(true, file[..PAGESIZE], 0, PAGESIZE, PAGESIZE, 0) && r.short == short
  {
    var o := Opened(file, short);
    OpenedOk(file, short);
    BuildOk(o, 0);
    var r0 := Build(o, 0).0;
    assert Prepare(o) == (r0, true);
    StartCopies(o, PAGESIZE);
    var p := Start(r0, PAGESIZE);
    TurnCopies(p, 0, 0, PAGESIZE);
    var p1 := Turn(p, 0, PAGESIZE);
    var r1 := SetOffset(r0, 0, PAGESIZE);
    assert r1.slots[0].active && !r1.slots[1].active;
    assert Victim(r1.slots) == VictimFrom(r1.slots, 1, 0, 0) == 1;
    assert Turns(p, 0, PAGESIZE, 1) == Turns(p1, 0, PAGESIZE, 0) == p1;
    r := p1.r;
  }

  /**
   * Two block reads, of one page and of one byte more than a page, on a file of more than two pages: the second
   * one never returns.
   */
  lemma SecondReadHangs(file: seq<Byte>, short: nat -> nat, r: Reader)
    requires |file| > 2 * PAGESIZE && forall n: nat :: short(n) >= PAGESIZE
    requires var r0 := Prepare(Opened(file, short)).0;
      r0.current == 0 && Turns(Start(r0, PAGESIZE), 0, PAGESIZE, 1) == Progress(r, file[..PAGESIZE], true)
    ensures Prepare(r) == (r, true) && r.current == 1
    ensures !Terminates(Start(r, PAGESIZE + 1), 1, PAGESIZE + 1)
  {
    var r' := OnePageRead(file, short);
    assert r' == r;
    StartCopies(r, PAGESIZE + 1);
    TerminatesUnaged(Start(r, PAGESIZE + 1), 1, Position(r), PAGESIZE + 1);
  }

  // Whole sessions

  datatype Request = SeekTo(pos: nat) | GetChar | GetBlock(sz: nat)
  datatype Answer = Sought | Char(value: int) | Block(bytes: seq<Byte>)

  /** What the unbuffered reader answers, and where it stands then. */
  function SlowAnswer(file: seq<Byte>, pos: nat, q: Request): (Answer, nat) {
    match q
    case SeekTo(p) => (Sought, p)
    case GetChar =>
      var (ch, pos') := SlowReadc(file, pos);
      (Char(if ch == EOF then EOF else SignedChar(ch)), pos')
    case GetBlock(sz) =>
      var bytes := SlowRead(file, pos, sz);
      (Block(bytes), pos + |bytes|)
  }

  function SlowSession(file: seq<Byte>, pos: nat, qs: seq<Request>): (r: (seq<Answer>, nat))
    decreases qs
  {
    if qs == [] then ([], pos) else
    var (a, pos1) := SlowAnswer(file, pos, qs[0]);
    var (rest, pos2) := SlowSession(file, pos1, qs[1..]);
    ([a] + rest, pos2)
  }

  /** The cached reader's answer; a block read gets turns turns. None if it does not return, or a seek crashes. */
  function CachedAnswer(r: Reader, q: Request, turns: nat): (o: Option<(Answer, Reader)>)
    requires WellFormed(r)
    ensures o.Some? ==> WellFormed(o.value.1)
  {
    match q
    case SeekTo(p) =>
      var r' := Seek(r, p);
      if r'.None? then None else Some((Sought, r'.value))
    case GetChar =>
      var (value, r') := Readc(r);
      Some((Char(value), r'))
    case GetBlock(sz) =>
      var (r1, ok) := Prepare(r);
      if !ok then Some((Block([]), r1)) else
      var p := Turns(Start(r1, sz), r1.current, sz, turns);
      if p.done then Some((Block(p.out), p.r)) else None
  }

  function CachedSession(r: Reader, qs: seq<Request>, turns: nat -> nat): (o: Option<(seq<Answer>, Reader)>)
    requires WellFormed(r)
    ensures o.Some? ==> WellFormed(o.value.1)
    decreases qs
  {
    if qs == [] then Some(([], r)) else
    var a := CachedAnswer(r, qs[0], turns(|qs|));
    if a.None? then None else
    var rest := CachedSession(a.value.1, qs[1..], turns);
    if rest.None? then None else Some(([a.value.0] + rest.value.0, rest.value.1))
  }

  lemma AnswerAgrees(r: Reader, q: Request, turns: nat)
    requires Inv(r)
    ensures var o := CachedAnswer(r, q, turns);
      o.Some? ==>
        var (a, pos') := SlowAnswer(r.file, Position(r), q);
        o.value.0 == a && Inv(o.value.1) && o.value.1.file == r.file && Position(o.value.1) == pos'
  {
    match q
    case SeekTo(p) =>
      SeekTheorem(r, p);
    case GetChar =>
      ReadcAgrees(r);
    case GetBlock(sz) =>
      PrepareOk(r);
      if Prepare(r).1 {
        ReadAgrees(r, sz, turns);
      } else {
        NothingToRead(r, sz);
      }
  }

  /** A session that gets through gives exactly the unbuffered reader's answers, whatever the slots went through. */
  lemma {:induction false} SessionAgrees(r: Reader, qs: seq<Request>, turns: nat -> nat)
    requires Inv(r)
    ensures var o := CachedSession(r, qs, turns);
      o.Some? ==>
        && o.value.0 == SlowSession(r.file, Position(r), qs).0
        && Inv(o.value.1) && Position(o.value.1) == SlowSession(r.file, Position(r), qs).1
    decreases qs
  {
    if qs != [] {
      AnswerAgrees(r, qs[0], turns(|qs|));
      var a := CachedAnswer(r, qs[0], turns(|qs|));
      if a.Some? {
        SessionAgrees(a.value.1, qs[1..], turns);
      }
    }
  }

  // Sessions of single bytes

  lemma OneByteDone(p: Progress, l: nat, start: nat, sz: nat, turns: nat, q: Progress)
    requires Copying(p, l, start, sz) && sz <= 1 && turns >= 1 && p.out == []
    requires p.r.slots[l].offset < p.r.slots[l].bufsize && q == Turns(p, l, sz, turns)
    ensures q.done
  {
    if p.done {
      DoneStays(p, l, sz, turns);
    } else {
      var p1 := Turn(p, l, sz);
      assert p1.done by { FirstTurn(p, l, start, sz); }
      TurnsUnfold(p, l, sz, turns, turns - 1, p1);
      DoneStays(p1, l, sz, turns - 1);
    }
  }

  /** A block read of at most one byte returns in its first turn, whatever slot it starts from. */
  lemma OneByteReturns(r: Reader, sz: nat, turns: nat)
    requires Inv(r) && sz <= 1 && turns >= 1
    ensures CachedAnswer(r, GetBlock(sz), turns).Some?
  {
    var (r1, ok) := Prepare(r);
    if ok {
      StartCopies(r, sz);
      var p := Start(r1, sz);
      OneByteDone(p, r1.current, Position(r), sz, turns, Turns(p, r1.current, sz, turns));
    }
  }

  // A reader that has a current slot keeps having one

  lemma {:induction false} TurnsKeepCurrent(p: Progress, l: nat, sz: nat, k: nat)
    requires WellFormed(p.r) && l < NCACHES && p.r.current != -1
    ensures Turns(p, l, sz, k).r.current != -1
    decreases k
  {
    if k > 0 {
      TurnsKeepCurrent(Turn(p, l, sz), l, sz, k - 1);
    }
  }

  /** It gets one with its first seek, and otherwise with its first read, if there is anything to read. */
  lemma AnswerMakesCurrent(r: Reader, q: Request, turns: nat)
    requires Inv(r)
    ensures var o := CachedAnswer(r, q, turns);
      o.Some? ==> (o.value.1.current != -1 <==> r.current != -1 || q.SeekTo? || |r.file| > 0)
  {
    match q
    case SeekTo(p) =>
    case GetChar =>
      PrepareOk(r);
    case GetBlock(sz) =>
      PrepareOk(r);
      var (r1, ok) := Prepare(r);
      if ok {
        TurnsKeepCurrent(Start(r1, sz), r1.current, sz, turns);
      }
  }

  /** A block is at most one byte long. */
  predicate OfOneByte(q: Request) {
    q.GetBlock? ==> q.sz <= 1
  }

  /**
   * Before a reader has a current slot, its first seek must be to a position inside the file, and on an empty file
   * there must be none.
   */
  predicate FreshOk(file: seq<Byte>, qs: seq<Request>) {
    qs == [] ||
    match qs[0]
    case SeekTo(p) => p < |file|
    case _ => |file| > 0 || FreshOk(file, qs[1..])
  }

  lemma OneByteAnswer(r: Reader, q: Request, turns: nat)
    requires Inv(r) && OfOneByte(q) && turns >= 1
    ensures CachedAnswer(r, q, turns).Some? <==> r.current != -1 || (q.SeekTo? ==> q.pos < |r.file|)
  {
    match q
    case SeekTo(p) => SeekTheorem(r, p);
    case GetChar =>
    case GetBlock(sz) => OneByteReturns(r, sz, turns);
  }

  /**
   * A session of seeks to any positions, beyond the end of the file too, and of reads of single bytes, as the drivers
   * make it with their default block size, gets through with the unbuffered reader's answers whenever the reader has a
   * current slot; a fresh reader gets through exactly if it finds something before it seeks out of the file.
   */
  lemma {:induction false} OneByteSessions(r: Reader, qs: seq<Request>, turns: nat -> nat)
    requires Inv(r) && (forall i: nat :: turns(i) >= 1) && (forall i :: 0 <= i < |qs| ==> OfOneByte(qs[i]))
    ensures var o := CachedSession(r, qs, turns);
      && (o.Some? <==> r.current != -1 || FreshOk(r.file, qs))
      && (o.Some? ==> o.value.0 == SlowSession(r.file, Position(r), qs).0)
    decreases qs
  {
    SessionAgrees(r, qs, turns);
    if qs != [] {
      var n := turns(|qs|);
      assert OfOneByte(qs[0]);
      OneByteAnswer(r, qs[0], n);
      AnswerMakesCurrent(r, qs[0], n);
      AnswerAgrees(r, qs[0], n);
      if CachedAnswer(r, qs[0], n).Some? {
        OneByteSessions(CachedAnswer(r, qs[0], n).value.1, qs[1..], turns);
      }
    }
  }
}
