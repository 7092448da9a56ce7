/** What writing to a file means, byte by byte as slow-io61 does it, and why blocks may be written instead. */
module WrittenFile {
  import opened Wrappers

  /** A file as the kernel keeps it for a descriptor: contents and file position. */
  datatype Disk = Disk(content: seq<Byte>, pos: nat)

  function Zeros(n: nat): seq<Byte> {
    seq(n, _ => 0)
  }

  /** The kernel's write of all of data: a gap beyond the end of the file is filled with zeros. */
  function WriteAt(content: seq<Byte>, pos: nat, data: seq<Byte>): (r: seq<Byte>)
    ensures data != [] ==> |r| == if pos + |data| > |content| then pos + |data| else |content|
  {
    if data == [] then content else
    var padded := if pos > |content| then content + Zeros(pos - |content|) else content;
    padded[..pos] + data + (if pos + |data| < |padded| then padded[pos + |data|..] else [])
  }

  function Written(d: Disk, data: seq<Byte>): Disk {
    Disk(WriteAt(d.content, d.pos, data), d.pos + |data|)
  }

  /** The unsigned char that C stores for an int. */
  function ToByte(ch: int): Byte {
    ch % 256
  }

  // The unbuffered writer

  function SlowWritec(d: Disk, ch: int): Disk {
    Written(d, [ToByte(ch)])
  }

  function SlowWrite(d: Disk, data: seq<Byte>): Disk
    decreases data
  {
    if data == [] then d else SlowWrite(SlowWritec(d, data[0]), data[1..])
  }

  function SlowSeek(d: Disk, pos: nat): Disk {
    d.(pos := pos)
  }

  // Blocks

  /** Two writes one after the other are one write. */
  lemma WritesCompose(d: Disk, a: seq<Byte>, b: seq<Byte>)
    ensures Written(Written(d, a), b) == Written(d, a + b)
  {
    var c, p := d.content, d.pos;
    if a == [] {
      assert a + b == b;
    } else if b == [] {
      assert a + b == a;
    } else {
      var one := WriteAt(c, p, a + b);
      var two := WriteAt(WriteAt(c, p, a), p + |a|, b);
      assert |one| == |two|;
      forall i | 0 <= i < |one|
        ensures one[i] == two[i]
      {
        ByteWritten(c, p, a + b, i);
        ByteWritten(WriteAt(c, p, a), p + |a|, b, i);
        if i < |WriteAt(c, p, a)| {
          ByteWritten(c, p, a, i);
        }
      }
      assert one == two;
    }
  }

  /** Writing data from k on to d leads to goal. */
  predicate LeadsTo(d: Disk, data: seq<Byte>, k: nat, goal: Disk) {
    k <= |data| && Written(d, data[k..]) == goal
  }

  /** Of the bytes from k on, n have been written: the rest still leads to the goal. */
  lemma RestOfWrite(before: Disk, after: Disk, data: seq<Byte>, k: nat, k': nat, part: seq<Byte>, goal: Disk)
    requires k <= k' <= |data| && part == data[k..][..k' - k]
    requires after == Written(before, part) && LeadsTo(before, data, k, goal)
    ensures LeadsTo(after, data, k', goal)
  {
    WritesCompose(before, part, data[k'..]);
    assert part + data[k'..] == data[k..];
  }

  /** Where each byte of a written file comes from. */
  lemma ByteWritten(c: seq<Byte>, p: nat, data: seq<Byte>, i: nat)
    requires data != [] && i < |WriteAt(c, p, data)|
    ensures WriteAt(c, p, data)[i] ==
              if p <= i < p + |data| then data[i - p] else if i < |c| then c[i] else 0
  {
  }

  /** Writing byte by byte is writing the whole block. */
  lemma {:induction false} SlowWriteIsBlock(d: Disk, data: seq<Byte>)
    ensures SlowWrite(d, data) == Written(d, data)
    decreases data
  {
    if data != [] {
      assert ToByte(data[0]) == data[0];
      SlowWriteIsBlock(SlowWritec(d, data[0]), data[1..]);
      WritesCompose(d, [data[0]], data[1..]);
      assert [data[0]] + data[1..] == data;
    }
  }

  // Sessions

  datatype WriteRequest = PutChar(ch: int) | PutBlock(data: seq<Byte>) | SeekTo(pos: nat)

  function SlowStep(d: Disk, q: WriteRequest): Disk {
    match q
    case PutChar(ch) => SlowWritec(d, ch)
    case PutBlock(data) => SlowWrite(d, data)
    case SeekTo(pos) => SlowSeek(d, pos)
  }

  function SlowSession(d: Disk, qs: seq<WriteRequest>): Disk
    decreases qs
  {
    if qs == [] then d else SlowSession(SlowStep(d, qs[0]), qs[1..])
  }
}

/** io61's write side: bytes gather in slot 0 and go to the kernel in blocks. */
module IO61Writes {
  import opened Wrappers
  import opened CachedFile
  import opened WrittenFile

  /** The first offset bytes of buf have not been written yet. */
  datatype WriteSlot = WriteSlot(buf: seq<Byte>, offset: nat, bufsize: nat)

  class WriteFile {
    var disk: Disk
    const caches: array<WriteSlot>
    var current: int                  // 0 once something has been written, else -1
    ghost var writes: seq<nat>        // how much each kernel write so far has carried

    ghost predicate Valid()
      reads this, caches
    {
      && caches.Length == NCACHES
      && (current == -1 || current == 0)
      && (current == 0 ==> 0 < caches[0].bufsize == |caches[0].buf|)
      && caches[0].offset <= caches[0].bufsize && (current == -1 ==> caches[0].offset == 0)
      && (forall i :: 1 <= i < NCACHES ==> caches[i].offset == 0)
    }

    ghost function Pending(): seq<Byte>
      requires Valid()
      reads this, caches
    {
      if current == -1 then [] else caches[0].buf[..caches[0].offset]
    }

    /** The file as it would be if everything pending were written now. */
    ghost function Effective(): Disk
      requires Valid()
      reads this, caches
    {
      Written(disk, Pending())
    }

    /** Since before, the kernel has been called with full buffers only. */
    ghost predicate FullSince(before: seq<nat>)
      requires Valid()
      reads this, caches
    {
      before <= writes && forall i :: |before| <= i < |writes| ==> current == 0 && writes[i] == caches[0].bufsize
    }

    constructor (disk: Disk)
      ensures Valid() && fresh(caches) && this.disk == disk && Pending() == [] && Effective() == disk && writes == []
    {
      this.disk, this.writes := disk, [];
      caches := new WriteSlot[NCACHES](_ => WriteSlot([], 0, 0));
      current := -1;
    }

    /** write(2), taking all that it is given. */
    method KernelWrite(data: seq<Byte>)
      modifies this`disk, this`writes
      ensures disk == Written(old(disk), data) && writes == old(writes) + [|data|]
    {
      disk, writes := Written(disk, data), writes + [|data|];
    }

    /** io61_flush: afterwards the kernel's file is exact; what was pending has gone out in one write. */
    method Flush()
      requires Valid()
      modifies this`disk, this`writes, caches
      ensures Valid() && Pending() == [] && disk == old(Effective()) == Effective()
      ensures current == 0 ==> caches[0].offset == 0 && caches[0].bufsize == old(caches[0].bufsize)
      ensures writes == old(writes) + (if old(Pending()) == [] then [] else [|old(Pending())|])
    {
      ghost var goal := Effective();
      var i := 0;
      while i < NCACHES
        invariant i <= NCACHES && Valid()
        invariant if i == 0 then Effective() == goal && disk == old(disk) && writes == old(writes)
                                 && caches[0] == old(caches[0])
                  else caches[0].offset == 0 && disk == goal && caches[0].bufsize == old(caches[0].bufsize)
                       && writes == old(writes) + (if old(Pending()) == [] then [] else [|old(Pending())|])
      {
        if caches[i].offset > 0 {
          KernelWrite(caches[i].buf[..caches[i].offset]);
          caches[i] := caches[i].(offset := 0);
        }
        i := i + 1;
      }
    }

    /** The first write decides how large the buffer is. */
    method NeedBuffer(size: nat)
      requires Valid() && size > 0
      modifies this`current, caches
      ensures Valid() && current == 0 && Effective() == old(Effective()) && Pending() == old(Pending())
      ensures old(current) == 0 ==> caches[0] == old(caches[0])
    {
      if current == -1 {
        current := 0;
        caches[0] := WriteSlot(Zeros(size), 0, size);
      }
    }

    /** io61_writec; the kernel is called for a full buffer at most */
    method PutChar(ch: int)
      requires Valid()
      modifies this`disk, this`writes, this`current, caches
      ensures Valid() && Effective() == SlowWritec(old(Effective()), ch) && FullSince(old(writes))
    {
      NeedBuffer(PAGESIZE);
      if caches[0].offset >= caches[0].bufsize {
        Flush();
      }
      ghost var before := Pending();
      var slot := caches[0];
      caches[0] := slot.(buf := slot.buf[slot.offset := ToByte(ch)], offset := slot.offset + 1);
      assert Pending() == before + [ToByte(ch)];
      WritesCompose(disk, before, [ToByte(ch)]);
    }

    /** memcpy of data into the buffer. */
    method Append(data: seq<Byte>)
      requires Valid() && current == 0 && caches[0].offset + |data| <= caches[0].bufsize
      modifies caches
      ensures Valid() && Effective() == Written(old(Effective()), data)
      ensures caches[0].offset == old(caches[0].offset) + |data| && caches[0].bufsize == old(caches[0].bufsize)
    {
      ghost var before := Pending();
      var slot := caches[0];
      var end := slot.offset + |data|;
      caches[0] := slot.(buf := slot.buf[..slot.offset] + data + slot.buf[end..], offset := end);
      assert Pending() == before + data;
      WritesCompose(disk, before, data);
    }

    /** One turn of io61_write's loop: fill the buffer as far as possible, and flush it if it is full. */
    method PutChunk(data: seq<Byte>) returns (n: nat)
      requires Valid() && current == 0 && caches[0].offset < caches[0].bufsize && data != []
      modifies this`disk, this`writes, caches
      ensures Valid() && caches[0].offset < caches[0].bufsize == old(caches[0].bufsize)
      ensures 0 < n <= |data| && Effective() == Written(old(Effective()), data[..n]) && FullSince(old(writes))
    {
      var charsLeft := caches[0].bufsize - caches[0].offset;
      n := if |data| > charsLeft then charsLeft else |data|;
      Append(data[..n]);
      if caches[0].offset == caches[0].bufsize {
        Flush();
      }
    }

    /** A turn of the loop brings it nearer to where it leads. */
    method NextChunk(data: seq<Byte>, k: nat, ghost goal: Disk) returns (k': nat)
      requires Valid() && current == 0 && caches[0].offset < caches[0].bufsize && k < |data|
      requires LeadsTo(Effective(), data, k, goal)
      modifies this`disk, this`writes, caches
      ensures Valid() && caches[0].offset < caches[0].bufsize == old(caches[0].bufsize)
      ensures k < k' <= |data| && LeadsTo(Effective(), data, k', goal) && FullSince(old(writes))
    {
      ghost var before := Effective();
      var rest := data[k..];
      var n := PutChunk(rest);
      k' := k + n;
      RestOfWrite(before, Effective(), data, k, k', rest[..n], goal);
    }

    /** io61_write; the kernel is called for full buffers only */
    method PutBlock(data: seq<Byte>) returns (nwritten: nat)
      requires Valid()
      modifies this`disk, this`writes, this`current, caches
      ensures Valid() && Effective() == SlowWrite(old(Effective()), data) && nwritten == |data|
      ensures FullSince(old(writes))
    {
      NeedBuffer(10 * PAGESIZE);
      if caches[0].offset >= caches[0].bufsize {
        Flush();
      }
      nwritten := 0;
      ghost var goal := Written(Effective(), data);
      ghost var size := caches[0].bufsize;
      while nwritten != |data|
        invariant nwritten <= |data| && Valid() && current == 0 && caches[0].offset < caches[0].bufsize
        invariant LeadsTo(Effective(), data, nwritten, goal) && FullSince(old(writes)) && caches[0].bufsize == size
        decreases |data| - nwritten
      {
        nwritten := NextChunk(data, nwritten, goal);
      }
      SlowWriteIsBlock(old(Effective()), data);
    }

    /** io61_seek on a write-only file */
    method SeekPosition(pos: nat)
      requires Valid()
      modifies this`disk, this`writes, caches
      ensures Valid() && Effective() == SlowSeek(old(Effective()), pos) && Pending() == []
      ensures writes == old(writes) + (if old(Pending()) == [] then [] else [|old(Pending())|])
    {
      Flush();
      disk := disk.(pos := pos);
    }

    /**
     * Any mix of writes and seeks leaves, together with what is pending, what the unbuffered writer leaves; after
     * the final flush the file itself is exact.
     */
    method Session(qs: seq<WriteRequest>)
      requires Valid()
      modifies this`disk, this`writes, this`current, caches
      ensures Valid() && disk == SlowSession(old(Effective()), qs) && Pending() == []
    {
      ghost var goal := SlowSession(Effective(), qs);
      var i := 0;
      while i < |qs|
        invariant i <= |qs| && Valid()
        invariant goal == SlowSession(Effective(), qs[i..])
      {
        match qs[i] {
          case PutChar(ch) => PutChar(ch);
          case PutBlock(data) => var _ := PutBlock(data);
          case SeekTo(pos) => SeekPosition(pos);
        }
        assert qs[i..][1..] == qs[i + 1..];
        i := i + 1;
      }
      Flush();
    }
  }
}
