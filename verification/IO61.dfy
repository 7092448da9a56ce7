/** io61's read side in its own form: slots changed in place, bytes copied into the caller's buffer. */
module IO61 {
  import opened Wrappers
  import opened CachedFile
  import opened CachedFileProofs
  import opened CachedFileReads

  /** getCacheForPos has dealt with the slots below i, and found the slot that covers pos if it is among them. */
  predicate SearchedUpTo(slots: seq<Slot>, now: seq<Slot>, pos: int, found: Option<nat>, i: nat)
    requires i <= |slots|
  {
    && |now| == |slots| && (found.Some? ==> found.value < i)
    && FindFrom(slots, pos, 0) == (if found.Some? then found else FindFrom(slots, pos, i))
    && (forall k :: 0 <= k < |slots| ==> now[k] == if k < i then Aged(slots, found)[k] else slots[k])
  }

  /** From p on, k more turns of io61_read's loop lead to goal. */
  ghost predicate LeadsTo(p: Progress, l: nat, sz: nat, k: nat, goal: Progress) {
    WellFormed(p.r) && l < NCACHES && Turns(p, l, sz, k) == goal
  }

  lemma OneTurnLess(p: Progress, p': Progress, l: nat, sz: nat, k: nat, k': nat, goal: Progress)
    requires LeadsTo(p, l, sz, k, goal) && k == k' + 1 && p' == Turn(p, l, sz)
    ensures LeadsTo(p', l, sz, k', goal)
  {
  }

  lemma NotYet(p: Progress, l: nat, sz: nat, k: nat, goal: Progress)
    requires LeadsTo(p, l, sz, k, goal) && goal.done && !p.done
    ensures k > 0
  {
  }

  lemma Arrives(p: Progress, l: nat, sz: nat, k: nat, goal: Progress)
    requires LeadsTo(p, l, sz, k, goal) && (k == 0 || p.done)
    ensures p == goal
  {
    if p.done {
      DoneIsFinal(p, l, sz, k);
    }
  }

  class ReadFile {
    const file: seq<Byte>             // the file on disk
    const short: nat -> nat           // how the kernel answers the n-th pread
    var calls: nat                    // preads so far
    const caches: array<Slot>
    var current: int                  // index of the current slot, or -1

    ghost predicate Valid()
      reads this
    {
      caches.Length == NCACHES && -1 <= current < NCACHES
    }

    ghost function S(): (r: Reader)
      requires Valid()
      reads this, caches
      ensures WellFormed(r)
    {
      Reader(file, short, calls, caches[..], current)
    }

    constructor (file: seq<Byte>, short: nat -> nat)
      ensures Valid() && fresh(caches) && S() == Opened(file, short)
    {
      this.file := file;
      this.short := short;
      calls := 0;
      caches := new Slot[NCACHES](_ => Slot(false, [], 0, 0, 0, 0));
      current := -1;
    }

    /** The kernel's pread, up to a page at pos. */
    method Pread(pos: nat) returns (bytes: seq<Byte>)
      requires Valid()
      modifies this`calls
      ensures |bytes| == PreadCount(old(S()), pos)
      ensures pos < |file| ==> bytes == file[pos..pos + |bytes|]
      ensures calls == old(calls) + 1
    {
      var n := PreadCount(Reader(file, short, calls, caches[..], current), pos);
      bytes := if n == 0 then [] else file[pos..pos + n];
      calls := calls + 1;
    }

    /** freeCache */
    method FreeCache() returns (v: nat)
      requires Valid()
      ensures v == Victim(caches[..])
    {
      var oldest: nat := 0;
      var maxLifetime := -1;
      var i := 0;
      while i < NCACHES
        invariant i <= NCACHES && oldest < NCACHES
        invariant Victim(caches[..]) == VictimFrom(caches[..], i, oldest, maxLifetime)
      {
        if !caches[i].active {
          return i;
        }
        if caches[i].lifetime > maxLifetime {
          oldest := i;
          maxLifetime := caches[i].lifetime;
        }
        i := i + 1;
      }
      v := oldest;
    }

    /** buildCacheForPos */
    method BuildCacheForPos(pos: nat) returns (ok: bool)
      requires Valid()
      modifies this`calls, this`current, caches
      ensures Valid() && (S(), ok) == Build(old(S()), pos)
    {
      var i := FreeCache();
      var bytes := Pread(pos);
      if |bytes| == 0 {
        caches[i] := caches[i].(active := false, buf := []);
        return false;
      }
      caches[i] := Slot(true, bytes, pos, 0, |bytes|, 0);
      current := i;
      ok := true;
    }

    /** getCacheForPos */
    method GetCacheForPos(pos: int) returns (ok: bool)
      requires Valid()
      modifies this`current, caches
      ensures Valid() && (S(), ok) == Get(old(S()), pos)
    {
      ghost var slots := caches[..];
      var found: Option<nat> := None;
      var i := 0;
      while i < NCACHES
        invariant i <= NCACHES && |slots| == NCACHES && SearchedUpTo(slots, caches[..], pos, found, i)
        invariant current == if found.Some? then found.value else old(current)
      {
        var slot := caches[i];
        if found.None? && Covers(slot, pos) {
          current := i;
          found := Some(i);
          slot := slot.(lifetime := slot.lifetime - 1);
        }
        caches[i] := slot.(lifetime := slot.lifetime + 1);
        i := i + 1;
      }
      ok := found.Some?;
      assert caches[..] == Aged(slots, found);
    }

    /** The calls that io61_readc and io61_read make to themselves until the current slot has bytes left. */
    method PrepareCache() returns (ok: bool)
      requires Valid()
      modifies this`calls, this`current, caches
      ensures Valid() && (S(), ok) == Prepare(old(S()))
      decreases if current == -1 then 2 else if caches[current].offset < caches[current].bufsize then 0 else 1
    {
      if current == -1 {
        ok := BuildCacheForPos(0);
        if !ok {
          return;
        }
      }
      if caches[current].offset < caches[current].bufsize {
        return true;
      }
      ok := BuildCacheForPos(caches[current].pos + caches[current].offset);
      if ok {
        ok := PrepareCache();
      }
    }

    /** io61_readc */
    method ReadChar() returns (result: int)
      requires Valid() && Inv(S())
      modifies this`calls, this`current, caches
      ensures Valid() && Inv(S()) && (result, S()) == Readc(old(S()))
      ensures var (ch, pos') := SlowReadc(file, Position(old(S())));
        Position(S()) == pos' && result == if ch == EOF then EOF else SignedChar(ch)
    {
      ghost var r := S();
      ReadcAgrees(r);
      PrepareOk(r);
      var ok := PrepareCache();
      if !ok {
        return EOF;
      }
      assert SlotOk(file, caches[current]);
      result := SignedChar(caches[current].buf[caches[current].offset]);
      caches[current] := caches[current].(offset := caches[current].offset + 1);
    }

    /** The first part of io61_seek: prefetch when the last byte but one is asked for. */
    method Prefetch(pos: nat)
      requires Valid() && current != -1
      modifies this`calls, this`current, caches
      ensures Valid() && S() == SeekBack(old(S()), pos)
    {
      var delta := pos - (caches[current].pos + caches[current].offset - 1);
      if delta == -1 {
        var found := GetCacheForPos(pos + delta);
        if !found {
          var _ := BuildCacheForPos(if pos < PAGESIZE then 0 else pos + 1 - PAGESIZE);
        }
      }
    }

    /** The second part: make the slot that covers pos, if there is or can be one, the current slot. */
    method Fetch(pos: nat)
      requires Valid()
      modifies this`calls, this`current, caches
      ensures Valid() && S() == Fetched(old(S()), pos)
    {
      var found := GetCacheForPos(pos);
      if !found {
        var _ := BuildCacheForPos(pos);
      }
    }

    /** io61_seek on a file that has been read from, or to a position inside the file. */
    method SeekPosition(pos: nat)
      requires Valid() && Inv(S()) && (current != -1 || pos < |file|)
      modifies this`calls, this`current, caches
      ensures Valid() && Some(S()) == Seek(old(S()), pos)
      ensures Inv(S()) && Position(S()) == pos
    {
      SeekTheorem(S(), pos);
      if current != -1 {
        Prefetch(pos);
      }
      Fetch(pos);
      SetPosition(pos);
    }

    /** The last part: the current slot's offset points to pos. */
    method SetPosition(pos: nat)
      requires Valid() && SetTo(S(), pos).Some?
      modifies caches
      ensures Valid() && Some(S()) == SetTo(old(S()), pos)
    {
      caches[current] := caches[current].(offset := pos - caches[current].pos);
    }

    /** memcpy of n bytes from slot l to buf, and the slot's offset moved on. */
    method CopyBytes(l: nat, buf: array<Byte>, nread: nat, n: nat)
      requires Valid() && l < NCACHES && nread + n <= buf.Length
      requires caches[l].offset + n <= |caches[l].buf|
      modifies caches, buf
      ensures Valid() && S() == SetOffset(old(S()), l, old(caches[l].offset) + n)
      ensures buf[..nread + n] ==
                old(buf[..nread]) + old(caches[l]).buf[old(caches[l].offset)..old(caches[l].offset) + n]
    {
      var slot := caches[l];
      forall i | 0 <= i < n {
        buf[nread + i] := slot.buf[slot.offset + i];
      }
      caches[l] := slot.(offset := slot.offset + n);
    }

    /** What io61_read has done so far, with nread bytes in buf. */
    ghost function Reading(buf: array<Byte>, nread: nat, done: bool): (p: Progress)
      requires Valid() && nread <= buf.Length
      reads this, caches, buf
      ensures WellFormed(p.r)
    {
      Progress(S(), buf[..nread], done)
    }

    /** The first half of a turn: copy as much from slot l to buf as it holds and the caller still wants. */
    method CopyOut(l: nat, buf: array<Byte>, nread: nat, sz: nat) returns (nread': nat)
      requires Valid() && l < NCACHES && nread < sz <= buf.Length
      requires caches[l].offset <= caches[l].bufsize <= |caches[l].buf|
      modifies caches, buf
      ensures Valid() && nread' <= sz
      ensures Reading(buf, nread', nread' == sz) == Copied(old(Reading(buf, nread, false)), l, sz)
    {
      var charsLeft := caches[l].bufsize - caches[l].offset;
      var cycleRead := if sz - nread > charsLeft then charsLeft else sz - nread;
      CopyBytes(l, buf, nread, cycleRead);
      nread' := nread + cycleRead;
    }

    /** One turn of io61_read's loop: copy from slot l to buf, and build a slot for what follows if l is used up. */
    method ReadTurn(l: nat, buf: array<Byte>, nread: nat, sz: nat) returns (nread': nat, done: bool)
      requires Valid() && l < NCACHES && nread < sz <= buf.Length
      requires caches[l].offset <= caches[l].bufsize <= |caches[l].buf|
      modifies this`calls, this`current, caches, buf
      ensures Valid() && nread' <= sz
      ensures Reading(buf, nread', done) == Turn(old(Reading(buf, nread, false)), l, sz)
    {
      nread' := CopyOut(l, buf, nread, sz);
      done := nread' == sz;
      ghost var p := Reading(buf, nread', done);
      if caches[l].offset == caches[l].bufsize {
        var ok := BuildCacheForPos(caches[l].pos + caches[l].offset);
        done := !ok || done;
      }
      assert Reading(buf, nread', done) == Refilled(p, l);
    }

    /**
     * io61_read, whenever it returns; TerminatesFromFirstSlot, TerminatesUnaged and TerminatesAged say when that is,
     * and k is a number of turns after which it does. The slot it copies from is chosen at the start. Afterwards the
     * buffer holds what the unbuffered reader would have read.
     */
    method ReadBlock(buf: array<Byte>, sz: nat, ghost k: nat) returns (nread: nat)
      requires Valid() && Inv(S()) && sz <= buf.Length
      requires var (r1, ok) := Prepare(S()); ok ==> Turns(Start(r1, sz), r1.current, sz, k).done
      modifies this`calls, this`current, caches, buf
      ensures Valid() && Inv(S()) && nread <= sz
      ensures buf[..nread] == SlowRead(file, Position(old(S())), sz)
      ensures Position(S()) == Position(old(S())) + nread
      ensures var (r1, ok) := Prepare(old(S()));
        if ok then Reading(buf, nread, true) == Turns(Start(r1, sz), r1.current, sz, k) else nread == 0 && S() == r1
    {
      ghost var r := S();
      var ok := PrepareCache();
      if !ok {
        NothingToRead(r, sz);
        return 0;
      }
      StartCopies(r, sz);
      nread := Loop(current, buf, sz, k, Position(r));
      SlowReadIsSlice(file, Position(r), sz);
    }

    /** A turn brings the loop one step nearer to where it leads. */
    method NextTurn(l: nat, buf: array<Byte>, nread: nat, sz: nat, ghost start: nat, ghost k: nat, ghost k': nat,
                    ghost goal: Progress)
      returns (nread': nat, done: bool)
      requires Valid() && l < NCACHES && nread <= sz <= buf.Length && k == k' + 1
      requires Copying(Reading(buf, nread, false), l, start, sz) && LeadsTo(Reading(buf, nread, false), l, sz, k, goal)
      modifies this`calls, this`current, caches, buf
      ensures Valid() && nread' <= sz
      ensures Copying(Reading(buf, nread', done), l, start, sz) && LeadsTo(Reading(buf, nread', done), l, sz, k', goal)
    {
      ghost var p := Reading(buf, nread, false);
      TurnCopies(p, l, start, sz);
      assert SlotOk(file, caches[l]);
      nread', done := ReadTurn(l, buf, nread, sz);
      OneTurnLess(p, Reading(buf, nread', done), l, sz, k, k', goal);
    }

    /** The loop of io61_read, which ends after at most k turns. */
    method Loop(l: nat, buf: array<Byte>, sz: nat, ghost k: nat, ghost start: nat) returns (nread: nat)
      requires Valid() && sz <= buf.Length && Copying(Start(S(), sz), l, start, sz)
      requires Turns(Start(S(), sz), l, sz, k).done
      modifies this`calls, this`current, caches, buf
      ensures Valid() && nread <= sz && Copying(Reading(buf, nread, true), l, start, sz)
      ensures Reading(buf, nread, true) == Turns(Start(old(S()), sz), l, sz, k)
    {
      ghost var goal, left := Turns(Start(S(), sz), l, sz, k), k;
      nread := 0;
      var finished := sz == 0;
      assert buf[..0] == [];
      assert Reading(buf, nread, finished) == Start(S(), sz);
      while !finished
        invariant nread <= sz && Valid()
        invariant Copying(Reading(buf, nread, finished), l, start, sz)
        invariant LeadsTo(Reading(buf, nread, finished), l, sz, left, goal)
        decreases left
      {
        NotYet(Reading(buf, nread, finished), l, sz, left, goal);
        ghost var left' := left - 1;
        nread, finished := NextTurn(l, buf, nread, sz, start, left, left', goal);
        left := left';
      }
      Arrives(Reading(buf, nread, finished), l, sz, left, goal);
    }

    /** io61_read copying from slot 0 returns by itself. */
    method ReadFromFirstSlot(buf: array<Byte>, sz: nat) returns (nread: nat)
      requires Valid() && Inv(S()) && sz <= buf.Length
      requires Prepare(S()).1 ==> Prepare(S()).0.current == 0
      modifies this`calls, this`current, caches, buf
      ensures Valid() && Inv(S()) && nread <= sz
      ensures buf[..nread] == SlowRead(file, Position(old(S())), sz)
      ensures Position(S()) == Position(old(S())) + nread
    {
      ghost var k := 0;
      ghost var (r1, ok) := Prepare(S());
      if ok {
        StartCopies(S(), sz);
        k := Remaining(Start(r1, sz), sz);
        FirstSlotTerminates(Start(r1, sz), Position(S()), sz, k);
      }
      nread := ReadBlock(buf, sz, k);
    }
  }
}
