/** The cached reader is indistinguishable from the unbuffered one, except where reading does not come to an end. */
module CachedFileProofs {
  import opened Wrappers
  import opened CachedFile

  // The invariant

  /** An active slot holds a window of the file. */
  predicate SlotOk(file: seq<Byte>, slot: Slot) {
    && slot.lifetime >= 0
    && (slot.active ==>
         && 0 < slot.bufsize <= PAGESIZE && slot.pos + slot.bufsize <= |file|
         && slot.buf == file[slot.pos..slot.pos + slot.bufsize])
  }

  /** The current slot has bytes left only if it is active, and its offset is beyond its end only at end of file. */
  predicate CurrentOk(file: seq<Byte>, slot: Slot) {
    && 0 < slot.bufsize && slot.pos + slot.bufsize <= |file|
    && (slot.offset < slot.bufsize ==> slot.active)
    && (slot.offset > slot.bufsize || !slot.active ==> slot.pos + slot.offset >= |file|)
  }

  predicate Inv(r: Reader) {
    && WellFormed(r)
    && (forall i :: 0 <= i < NCACHES ==> SlotOk(r.file, r.slots[i]))
    && (r.current >= 0 ==> CurrentOk(r.file, r.slots[r.current]))
  }

  /** A freshly opened file. */
  function Opened(file: seq<Byte>, short: nat -> nat): Reader {
    Reader(file, short, 0, seq(NCACHES, _ => Slot(false, [], 0, 0, 0, 0)), -1)
  }

  lemma OpenedOk(file: seq<Byte>, short: nat -> nat)
    ensures Inv(Opened(file, short)) && Position(Opened(file, short)) == 0
  {
  }

  // Building a slot

  /** A slot is built for pos exactly when there is something to read there. */
  lemma BuildOk(r: Reader, pos: nat)
    requires Inv(r)
    ensures var (r', ok) := Build(r, pos);
      && ok == (pos < |r.file|)
      && (ok ==> Inv(r') && Position(r') == pos && r'.current == Victim(r.slots)
                 && r'.slots[r'.current].active && r'.slots[r'.current].offset == 0)
      && (!ok && Position(r) >= |r.file| ==> Inv(r'))
      && (!ok ==> r'.current == r.current && Position(r') == Position(r))
      && (!ok ==> forall i :: 0 <= i < NCACHES ==> SlotOk(r.file, r'.slots[i]))
      && (forall i :: 0 <= i < NCACHES && i != Victim(r.slots) ==> r'.slots[i] == r.slots[i])
      && r'.calls == r.calls + 1 && r'.file == r.file && r'.short == r.short
      && (!ok ==> !r'.slots[Victim(r.slots)].active)
  {
    var (r', ok) := Build(r, pos);
    forall i | 0 <= i < NCACHES
      ensures SlotOk(r.file, r'.slots[i])
    {
      assert SlotOk(r.file, r.slots[i]);
    }
  }

  lemma GetOk(r: Reader, pos: int)
    requires WellFormed(r) && (forall i :: 0 <= i < NCACHES ==> SlotOk(r.file, r.slots[i]))
    ensures var (r', found) := Get(r, pos);
      && (forall i :: 0 <= i < NCACHES ==>
           SlotOk(r.file, r'.slots[i]) && r'.slots[i] == r.slots[i].(lifetime := r'.slots[i].lifetime))
      && (if found then 0 <= r'.current < NCACHES && Covers(r'.slots[r'.current], pos)
          else r'.current == r.current)
  {
    var (r', found) := Get(r, pos);
    forall i | 0 <= i < NCACHES
      ensures SlotOk(r.file, r'.slots[i])
    {
      assert SlotOk(r.file, r.slots[i]);
    }
  }

  // Single characters

  lemma PrepareOk(r: Reader)
    requires Inv(r)
    ensures var (r1, ok) := Prepare(r);
      && Inv(r1) && Position(r1) == Position(r) && r1.file == r.file
      && ok == (Position(r) < |r.file|)
      && (ok ==> r1.current >= 0 && r1.slots[r1.current].active)
  {
    if r.current == -1 {
      BuildOk(r, 0);
    } else if r.slots[r.current].offset >= r.slots[r.current].bufsize {
      BuildOk(r, Position(r));
    }
  }

  /** io61_readc returns what the unbuffered reader returns, as a signed character, and moves on as far. */
  lemma ReadcAgrees(r: Reader)
    requires Inv(r)
    ensures var (ch, pos') := SlowReadc(r.file, Position(r));
      var (result, r') := Readc(r);
      && Inv(r') && r'.file == r.file && Position(r') == pos'
      && result == if ch == EOF then EOF else SignedChar(ch)
  {
    PrepareOk(r);
    var (r1, ok) := Prepare(r);
    if ok {
      var r' := SetOffset(r1, r1.current, r1.slots[r1.current].offset + 1);
      forall i | 0 <= i < NCACHES
        ensures SlotOk(r.file, r'.slots[i])
      {
        assert SlotOk(r.file, r1.slots[i]);
      }
      assert SlotOk(r.file, r1.slots[r1.current]);
    }
  }

  // Seeking

  /** Every slot is a window of the file, and the current slot, if any, is or was one. */
  predicate SlotsOk(r: Reader) {
    && WellFormed(r)
    && (forall i :: 0 <= i < NCACHES ==> SlotOk(r.file, r.slots[i]))
    && (r.current >= 0 ==>
         var slot := r.slots[r.current];
         0 < slot.bufsize && slot.pos + slot.bufsize <= |r.file|)
  }

  lemma GetKeepsSlots(r: Reader, pos: int)
    requires SlotsOk(r)
    ensures SlotsOk(Get(r, pos).0)
  {
    GetOk(r, pos);
  }

  lemma BuildKeepsSlots(r: Reader, pos: nat)
    requires SlotsOk(r)
    ensures var (r', ok) := Build(r, pos);
      && SlotsOk(r') && ok == (pos < |r.file|)
      && (ok ==> r'.current >= 0 && Covers(r'.slots[r'.current], pos))
      && (!ok ==> r'.current == r.current)
  {
    var (r', ok) := Build(r, pos);
    forall i | 0 <= i < NCACHES
      ensures SlotOk(r.file, r'.slots[i])
    {
      assert SlotOk(r.file, r.slots[i]);
    }
  }

  lemma SeekBackKeepsSlots(r: Reader, pos: nat)
    requires SlotsOk(r) && r.current != -1
    ensures SlotsOk(SeekBack(r, pos)) && SeekBack(r, pos).current != -1 && SeekBack(r, pos).file == r.file
  {
    var delta := pos - (r.slots[r.current].pos + r.slots[r.current].offset - 1);
    if delta == -1 {
      GetOk(r, pos + delta);
      GetKeepsSlots(r, pos + delta);
      BuildKeepsSlots(Get(r, pos + delta).0, if pos < PAGESIZE then 0 else pos + 1 - PAGESIZE);
    }
  }

  /** Having looked for a slot that covers pos and built one if there was none, the reader can be set to pos. */
  lemma FetchOk(r1: Reader, pos: nat, r3: Reader)
    requires SlotsOk(r1) && r3 == Fetched(r1, pos)
    ensures SlotsOk(r3) && r3.file == r1.file
    ensures r3.current == -1 <==> r1.current == -1 && pos >= |r1.file|
    ensures pos < |r1.file| ==> Covers(r3.slots[r3.current], pos)
  {
    GetOk(r1, pos);
    GetKeepsSlots(r1, pos);
    var (r2, found) := Get(r1, pos);
    BuildKeepsSlots(r2, pos);
    if found {
      assert SlotOk(r1.file, r2.slots[r2.current]);
    }
  }

  lemma SetToOk(r3: Reader, pos: nat)
    requires SlotsOk(r3) && r3.current != -1
    requires pos < |r3.file| ==> Covers(r3.slots[r3.current], pos)
    ensures SetTo(r3, pos).Some?
    ensures var r' := SetTo(r3, pos).value; Inv(r') && Position(r') == pos && r'.file == r3.file
  {
    var r' := SetOffset(r3, r3.current, pos - r3.slots[r3.current].pos);
    forall i | 0 <= i < NCACHES
      ensures SlotOk(r3.file, r'.slots[i])
    {
      assert SlotOk(r3.file, r3.slots[i]);
    }
  }

  /**
   * io61_seek puts the reader at pos, anywhere in the file or beyond. It fails, by using a current slot that does
   * not exist, exactly when nothing has been read yet and there is nothing at pos.
   */
  lemma SeekTheorem(r: Reader, pos: nat)
    requires Inv(r)
    ensures Seek(r, pos).Some? <==> r.current != -1 || pos < |r.file|
    ensures Seek(r, pos).Some? ==>
              var r' := Seek(r, pos).value;
              Inv(r') && Position(r') == pos && r'.file == r.file
  {
    assert SlotsOk(r);
    var r1 := if r.current == -1 then r else SeekBack(r, pos);
    if r.current != -1 {
      SeekBackKeepsSlots(r, pos);
    }
    var r3 := Fetched(r1, pos);
    FetchOk(r1, pos, r3);
    if r3.current != -1 {
      SetToOk(r3, pos);
    }
  }

  // Blocks: what a turn of the loop keeps

  /** Slot l is where the loop copies from; if it is used up, the current slot continues where it ends. */
  predicate Copying(p: Progress, l: nat, start: nat, sz: nat) {
    && Inv(p.r) && l < NCACHES && 0 <= p.r.current
    && |p.out| <= sz && start + |p.out| <= |p.r.file| && p.out == p.r.file[start..start + |p.out|]
    && Position(p.r) == start + |p.out|
    && (p.done ==> |p.out| == sz || start + |p.out| == |p.r.file|)
    && (!p.done ==>
         var slot := p.r.slots[l];
         && |p.out| < sz && slot.active && slot.offset <= slot.bufsize
         && slot.pos + slot.offset == start + |p.out|
         && (slot.offset == slot.bufsize ==> start + |p.out| < |p.r.file|)
         && (slot.offset < slot.bufsize ==> p.r.current == l))
  }

  /** A slice of a slice. */
  lemma SliceOfSlice(file: seq<Byte>, pos: nat, size: nat, a: nat, b: nat)
    requires a <= b <= size && pos + size <= |file|
    ensures file[pos..pos + size][a..b] == file[pos + a..pos + b]
  {
    var one, two := file[pos..pos + size][a..b], file[pos + a..pos + b];
    forall i | 0 <= i < |one|
      ensures one[i] == two[i]
    {
    }
  }

  lemma SlicesJoin(file: seq<Byte>, a: nat, b: nat, c: nat)
    requires a <= b <= c <= |file|
    ensures file[a..b] + file[b..c] == file[a..c]
  {
  }

  /** What has been copied so far, followed by what a turn takes out of the slot. */
  lemma CopiedOut(file: seq<Byte>, slot: Slot, out: seq<Byte>, start: nat, n: nat)
    requires SlotOk(file, slot) && slot.active && slot.offset + n <= slot.bufsize
    requires start + |out| == slot.pos + slot.offset && out == file[start..start + |out|]
    ensures slot.offset + n <= |slot.buf|
    ensures out + slot.buf[slot.offset..slot.offset + n] == file[start..start + |out| + n]
  {
    SliceOfSlice(file, slot.pos, slot.bufsize, slot.offset, slot.offset + n);
    SlicesJoin(file, start, start + |out|, start + |out| + n);
  }

  /** Moving the offset of one slot leaves all slots windows of the file. */
  lemma OffsetKeepsSlots(r: Reader, l: nat, offset: nat)
    requires WellFormed(r) && l < NCACHES && (forall i :: 0 <= i < NCACHES ==> SlotOk(r.file, r.slots[i]))
    ensures forall i :: 0 <= i < NCACHES ==> SlotOk(r.file, SetOffset(r, l, offset).slots[i])
  {
    forall i | 0 <= i < NCACHES
      ensures SlotOk(r.file, SetOffset(r, l, offset).slots[i])
    {
      assert SlotOk(r.file, r.slots[i]);
    }
  }

  lemma CopyPart(p: Progress, l: nat, start: nat, sz: nat, p': Progress)
    requires Copying(p, l, start, sz) && !p.done && p' == Copied(p, l, sz)
    ensures |p'.out| <= sz && start + |p'.out| <= |p.r.file| && p'.out == p.r.file[start..start + |p'.out|]
    ensures Inv(p'.r) && Position(p'.r) == start + |p'.out| && p'.r.current == p.r.current && p'.r.file == p.r.file
    ensures p'.done <==> |p'.out| == sz
    ensures var slot, slot' := p.r.slots[l], p'.r.slots[l];
      && slot' == slot.(offset := slot'.offset) && slot'.pos + slot'.offset == start + |p'.out|
      && slot'.offset <= slot'.bufsize && (slot'.offset < slot'.bufsize ==> p'.r.current == l)
      && (p'.done || slot'.offset == slot'.bufsize)
  {
    var slot := p.r.slots[l];
    assert SlotOk(p.r.file, slot);
    var n := Min(sz - |p.out|, slot.bufsize - slot.offset);
    assert p'.out == p.r.file[start..start + |p.out| + n] by { CopiedOut(p.r.file, slot, p.out, start, n); }
    assert p'.r == SetOffset(p.r, l, slot.offset + n);
    OffsetKeepsSlots(p.r, l, slot.offset + n);
  }

  lemma TurnCopies(p: Progress, l: nat, start: nat, sz: nat)
    requires Copying(p, l, start, sz)
    ensures Copying(Turn(p, l, sz), l, start, sz) && Turn(p, l, sz).r.file == p.r.file
  {
    if !p.done {
      var p' := Copied(p, l, sz);
      CopyPart(p, l, start, sz, p');
      RefillPart(p', l, start, sz, Refilled(p', l));
    }
  }

  /** A slot has been built for what follows. */
  lemma BuiltCopies(p: Progress, l: nat, start: nat, sz: nat, r1: Reader)
    requires Inv(p.r) && l < NCACHES && 0 <= p.r.current && start + |p.out| < |p.r.file| && |p.out| <= sz
    requires p.out == p.r.file[start..start + |p.out|] && (p.done <==> |p.out| == sz)
    requires r1 == Build(p.r, start + |p.out|).0
    requires var slot := p.r.slots[l];
      slot.active && slot.pos + slot.offset == start + |p.out| && slot.offset == slot.bufsize
    ensures Copying(Progress(r1, p.out, p.done), l, start, sz) && r1.file == p.r.file
  {
    BuildOk(p.r, start + |p.out|);
    if Victim(p.r.slots) == l {
      assert SlotOk(r1.file, r1.slots[l]);
    }
  }

  /** There is nothing left to build a slot for. */
  lemma NothingBuilt(p: Progress, l: nat, start: nat, sz: nat, r1: Reader)
    requires Inv(p.r) && l < NCACHES && 0 <= p.r.current && start + |p.out| == |p.r.file| && |p.out| <= sz
    requires p.out == p.r.file[start..start + |p.out|] && Position(p.r) == start + |p.out|
    requires r1 == Build(p.r, start + |p.out|).0
    ensures Copying(Progress(r1, p.out, true), l, start, sz) && r1.file == p.r.file
  {
    BuildOk(p.r, start + |p.out|);
  }

  lemma RefillPart(p: Progress, l: nat, start: nat, sz: nat, p': Progress)
    requires Inv(p.r) && l < NCACHES && 0 <= p.r.current && p' == Refilled(p, l)
    requires |p.out| <= sz && start + |p.out| <= |p.r.file| && p.out == p.r.file[start..start + |p.out|]
    requires Position(p.r) == start + |p.out| && (p.done <==> |p.out| == sz)
    requires var slot := p.r.slots[l];
      slot.active && slot.pos + slot.offset == start + |p.out| && (p.done || slot.offset == slot.bufsize)
    ensures Copying(p', l, start, sz) && p'.r.file == p.r.file
  {
    var slot, pos := p.r.slots[l], start + |p.out|;
    if slot.offset == slot.bufsize {
      var (r1, ok) := Build(p.r, pos);
      assert ok <==> pos < |p.r.file| by { BuildOk(p.r, pos); }
      if ok {
        BuiltCopies(p, l, start, sz, r1);
      } else {
        NothingBuilt(p, l, start, sz, r1);
      }
    }
  }

  lemma TurnsUnfold(p: Progress, l: nat, sz: nat, k: nat, k': nat, p1: Progress)
    requires WellFormed(p.r) && l < NCACHES && k == k' + 1 && p1 == Turn(p, l, sz)
    ensures Turns(p, l, sz, k) == Turns(p1, l, sz, k')
  {
  }

  lemma {:induction false} TurnsCopy(p: Progress, l: nat, start: nat, sz: nat, k: nat, q: Progress)
    requires Copying(p, l, start, sz) && q == Turns(p, l, sz, k)
    ensures Copying(q, l, start, sz) && q.r.file == p.r.file
    decreases k
  {
    if k != 0 {
      var p1 := Turn(p, l, sz);
      assert Copying(p1, l, start, sz) && p1.r.file == p.r.file by { TurnCopies(p, l, start, sz); }
      TurnsUnfold(p, l, sz, k, k - 1, p1);
      TurnsCopy(p1, l, start, sz, k - 1, q);
    }
  }
}
