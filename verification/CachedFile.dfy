/**
 * Reading a seekable file through io61's ten cache slots, next to the unbuffered reader that it must agree with.
 * How much each pread returns, beyond being at least one byte before the end of the file, is up to an arbitrary
 * function of the number of calls made so far.
 */
module CachedFile {
  import opened Wrappers

  const NCACHES: nat := 10
  const PAGESIZE: nat := 4096
  const EOF: int := -1

  /** The value of a byte that C stores in a signed char. */
  function SignedChar(b: Byte): int {
    if b < 128 then b else b - 256
  }

  function Min(a: nat, b: nat): nat {
    if a < b then a else b
  }

  // The unbuffered reader

  /** slow-io61's io61_readc at position pos: the character or EOF, and the position afterwards. */
  function SlowReadc(file: seq<Byte>, pos: nat): (int, nat) {
    if pos < |file| then (file[pos], pos + 1) else (EOF, pos)
  }

  /** slow-io61's io61_read: the characters that its loop has stored. */
  function SlowRead(file: seq<Byte>, pos: nat, sz: nat): (r: seq<Byte>)
    decreases sz
  {
    if sz == 0 then [] else
    var (ch, pos') := SlowReadc(file, pos);
    if ch == EOF then [] else [ch] + SlowRead(file, pos', sz - 1)
  }

  /** Reading byte by byte yields the bytes of the file from pos on, as far as it goes. */
  lemma {:induction false} SlowReadIsSlice(file: seq<Byte>, pos: nat, sz: nat)
    ensures SlowRead(file, pos, sz) == if pos < |file| then file[pos..Min(pos + sz, |file|)] else []
    decreases sz
  {
    if sz != 0 && pos < |file| {
      SlowReadIsSlice(file, pos + 1, sz - 1);
    }
  }

  // Slots

  /** buf holds what pread stored; offset is how much of it has been passed on. */
  datatype Slot = Slot(active: bool, buf: seq<Byte>, pos: nat, offset: nat, bufsize: nat, lifetime: int)

  datatype Reader = Reader(file: seq<Byte>, short: nat -> nat, calls: nat, slots: seq<Slot>, current: int)

  /** What the next pread at pos returns: any number of bytes up to a page, at least one unless at end of file. */
  function PreadCount(r: Reader, pos: nat): (n: nat)
    ensures n == 0 <==> pos >= |r.file|
    ensures n > 0 ==> pos + n <= |r.file| && n <= PAGESIZE
  {
    if pos >= |r.file| then 0 else
    var limit := Min(PAGESIZE, |r.file| - pos);
    if r.short(r.calls) == 0 then 1 else Min(r.short(r.calls), limit)
  }

  /** freeCache from slot i on, having found oldest so far: the first empty slot, or the first with the longest life. */
  function VictimFrom(slots: seq<Slot>, i: nat, oldest: nat, maxLifetime: int): (v: nat)
    requires i <= |slots| && oldest < |slots|
    ensures v < |slots|
    decreases |slots| - i
  {
    if i == |slots| then oldest
    else if !slots[i].active then i
    else if slots[i].lifetime > maxLifetime then VictimFrom(slots, i + 1, i, slots[i].lifetime)
    else VictimFrom(slots, i + 1, oldest, maxLifetime)
  }

  function Victim(slots: seq<Slot>): (v: nat)
    requires |slots| > 0
    ensures v < |slots|
  {
    VictimFrom(slots, 0, 0, -1)
  }

  predicate WellFormed(r: Reader) {
    |r.slots| == NCACHES && -1 <= r.current < NCACHES
  }

  /** buildCacheForPos: the reader afterwards, and whether anything could be read. */
  function Build(r: Reader, pos: nat): (b: (Reader, bool))
    requires WellFormed(r)
    ensures WellFormed(b.0) && b.0.file == r.file && b.0.short == r.short
  {
    var i := Victim(r.slots);
    var n := PreadCount(r, pos);
    if n == 0 then
      (r.(calls := r.calls + 1, slots := r.slots[i := r.slots[i].(active := false, buf := [])]), false)
    else
      (r.(calls := r.calls + 1, current := i,
          slots := r.slots[i := Slot(true, r.file[pos..pos + n], pos, 0, n, 0)]), true)
  }

  predicate Covers(slot: Slot, pos: int) {
    slot.active && slot.pos <= pos < slot.pos + slot.bufsize
  }

  /** The first slot from i on that covers pos. */
  function FindFrom(slots: seq<Slot>, pos: int, i: nat): (f: Option<nat>)
    requires i <= |slots|
    ensures f.Some? ==> i <= f.value < |slots| && Covers(slots[f.value], pos)
    ensures forall k :: i <= k < (if f.Some? then f.value else |slots|) ==> !Covers(slots[k], pos)
    decreases |slots| - i
  {
    if i == |slots| then None else if Covers(slots[i], pos) then Some(i) else FindFrom(slots, pos, i + 1)
  }

  /** All slots but the one that was found grow older. */
  function Aged(slots: seq<Slot>, found: Option<nat>): (s: seq<Slot>)
    ensures |s| == |slots|
  {
    seq(|slots|, i requires 0 <= i < |slots| =>
      if found == Some(i) then slots[i] else slots[i].(lifetime := slots[i].lifetime + 1))
  }

  /** getCacheForPos: the reader afterwards, and whether a slot covers pos. */
  function Get(r: Reader, pos: int): (g: (Reader, bool))
    requires WellFormed(r)
    ensures WellFormed(g.0) && g.0.file == r.file && g.0.short == r.short
  {
    var found := FindFrom(r.slots, pos, 0);
    (r.(slots := Aged(r.slots, found), current := if found.Some? then found.value else r.current), found.Some?)
  }

  /** The position in the file at which the next byte is read. */
  function Position(r: Reader): nat
    requires WellFormed(r)
  {
    if r.current == -1 then 0 else r.slots[r.current].pos + r.slots[r.current].offset
  }

  function SetOffset(r: Reader, i: nat, offset: nat): (r': Reader)
    requires WellFormed(r) && i < NCACHES
    ensures WellFormed(r')
  {
    r.(slots := r.slots[i := r.slots[i].(offset := offset)])
  }

  // The interface

  /** io61_seek; None if there is no current slot to set the offset of. */
  function Seek(r: Reader, pos: nat): (r': Option<Reader>)
    requires WellFormed(r)
    ensures r'.Some? ==> WellFormed(r'.value)
  {
    SetTo(Fetched(if r.current == -1 then r else SeekBack(r, pos), pos), pos)
  }

  /** The slot that covers pos, if there is one or one can be built, becomes the current slot. */
  function Fetched(r: Reader, pos: nat): (r': Reader)
    requires WellFormed(r)
    ensures WellFormed(r')
  {
    var (r1, found) := Get(r, pos);
    if found then r1 else Build(r1, pos).0
  }

  function SetTo(r: Reader, pos: nat): (r': Option<Reader>)
    requires WellFormed(r)
    ensures r'.Some? ==> WellFormed(r'.value)
  {
    if r.current == -1 || pos < r.slots[r.current].pos then None
    else Some(SetOffset(r, r.current, pos - r.slots[r.current].pos))
  }

  /** One step backwards from the byte last read makes the reader fetch the page that ends there. */
  function SeekBack(r: Reader, pos: nat): (r': Reader)
    requires WellFormed(r) && r.current != -1
    ensures WellFormed(r') && r'.file == r.file
  {
    var delta := pos - (r.slots[r.current].pos + r.slots[r.current].offset - 1);
    if delta != -1 then r else
    var (r1, found) := Get(r, pos + delta);
    if found then r1 else Build(r1, if pos < PAGESIZE then 0 else pos + 1 - PAGESIZE).0
  }

  /** The part that io61_readc and io61_read start with: have a current slot with something left in it. */
  function Prepare(r: Reader): (p: (Reader, bool))
    requires WellFormed(r)
    ensures WellFormed(p.0)
    ensures p.1 ==> p.0.current >= 0 && p.0.slots[p.0.current].offset < p.0.slots[p.0.current].bufsize
    decreases if r.current == -1 then 2
              else if r.slots[r.current].offset < r.slots[r.current].bufsize then 0 else 1
  {
    if r.current == -1 then
      var (r1, ok) := Build(r, 0);
      if ok then Prepare(r1) else (r1, false)
    else if r.slots[r.current].offset < r.slots[r.current].bufsize then (r, true)
    else
      var (r1, ok) := Build(r, Position(r));
      if ok then Prepare(r1) else (r1, false)
  }

  /** io61_readc */
  function Readc(r: Reader): (c: (int, Reader))
    requires WellFormed(r)
    ensures WellFormed(c.1)
  {
    var (r1, ok) := Prepare(r);
    if !ok then (EOF, r1) else
    var slot := r1.slots[r1.current];
    (if slot.offset < |slot.buf| then SignedChar(slot.buf[slot.offset]) else 0,
     SetOffset(r1, r1.current, slot.offset + 1))
  }

  /** The loop of io61_read between two turns: what has been copied, and whether it has returned. */
  datatype Progress = Progress(r: Reader, out: seq<Byte>, done: bool)

  /** One turn of io61_read's loop, which goes on copying from slot l whatever the current slot is. */
  function Turn(p: Progress, l: nat, sz: nat): (p': Progress)
    requires WellFormed(p.r) && l < NCACHES
    ensures WellFormed(p'.r)
  {
    if p.done || |p.out| >= sz then p.(done := true) else Refilled(Copied(p, l, sz), l)
  }

  /** The copying part of a turn. */
  function Copied(p: Progress, l: nat, sz: nat): (p': Progress)
    requires WellFormed(p.r) && l < NCACHES && |p.out| < sz
    ensures WellFormed(p'.r)
  {
    var slot := p.r.slots[l];
    var left := if slot.offset <= slot.bufsize <= |slot.buf| then slot.bufsize - slot.offset else 0;
    var n := Min(sz - |p.out|, left);
    Progress(SetOffset(p.r, l, slot.offset + n),
             p.out + (if n > 0 then slot.buf[slot.offset..slot.offset + n] else []),
             |p.out| + n == sz)
  }

  /** A slot that is used up makes the turn build one for what follows; at the end of the file the loop is over. */
  function Refilled(p: Progress, l: nat): (p': Progress)
    requires WellFormed(p.r) && l < NCACHES
    ensures WellFormed(p'.r)
  {
    var slot := p.r.slots[l];
    if slot.offset != slot.bufsize then p else
    var (r1, ok) := Build(p.r, slot.pos + slot.offset);
    Progress(r1, p.out, !ok || p.done)
  }

  function Turns(p: Progress, l: nat, sz: nat, k: nat): (p': Progress)
    requires WellFormed(p.r) && l < NCACHES
    ensures WellFormed(p'.r)
    decreases k
  {
    if k == 0 then p else Turns(Turn(p, l, sz), l, sz, k - 1)
  }
}
