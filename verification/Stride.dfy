/**
 * stridecat61 and ostridecat61: emit a file column by column, and put it together again. Reading and writing are
 * those of the unbuffered library.
 */
module Stride {
  import opened Wrappers
  import opened Collections
  import opened CachedFile
  import opened WrittenFile

  // The drivers' loops

  datatype Cursor = Cursor(pos: nat, block: nat)

  const SIZE_MODULUS: nat := 0x1_0000_0000_0000_0000
  const SSIZE_MAX: nat := 0x7FFF_FFFF_FFFF_FFFF        // the largest file that io61_filesize reports

  /** The remainder of x, by adding or taking away m. */
  function Remainder(x: int, m: nat): (r: nat)
    requires m > 0
    ensures r < m
    decreases if x < 0 then m - x else x
  {
    if x < 0 then Remainder(x + m, m) else if x < m then x else Remainder(x - m, m)
  }

  /** The value of a size_t. */
  function SizeT(x: int): nat {
    Remainder(x, SIZE_MODULUS)
  }

  lemma {:induction false} RemainderIsModulo(x: int, m: nat)
    requires m > 0
    ensures Remainder(x, m) == x % m
    decreases if x < 0 then m - x else x
  {
    if x < 0 {
      RemainderIsModulo(x + m, m);
      ModuloMoves(x, m);
    } else if x >= m {
      RemainderIsModulo(x - m, m);
      ModuloMoves(x - m, m);
    }
  }

  lemma ModuloMoves(x: int, m: nat)
    requires m > 0
    ensures (x + m) % m == x % m
  {
    var q, r := x / m, x % m;
    var q', r' := (x + m) / m, (x + m) % m;
    assert x == q * m + r && x + m == q' * m + r';
    assert (q' - q - 1) * m == r - r' && (q + 1 - q') * m == r' - r;
    if q' > q + 1 {
      AtLeastOnce(q' - q - 1, m);
    } else if q' < q + 1 {
      AtLeastOnce(q + 1 - q', m);
    }
  }

  /** How both drivers move on: down the column, or to the top of the next one, which may be narrower. */
  function Advance(c: Cursor, stride: nat, size: nat): Cursor {
    var pos := SizeT(c.pos + stride);
    if pos < size || stride == 0 then Cursor(pos, c.block) else
    var top := SizeT(Remainder(pos, stride) + c.block);
    Cursor(top, if SizeT(top + c.block) > stride then SizeT(stride - top) else c.block)
  }

  /** The positions of the bytes that one read at the cursor yields. */
  function Chunk(c: Cursor, size: nat): (s: seq<nat>)
    ensures |s| == if c.pos < size then Min(c.block, size - c.pos) else 0
  {
    var n := if c.pos < size then Min(c.block, size - c.pos) else 0;
    seq(n, i requires 0 <= i => c.pos + i)
  }

  /** The positions of the bytes that stridecat61 emits from the cursor on. */
  function Emitted(size: nat, stride: nat, c: Cursor, written: nat): (s: seq<nat>)
    ensures forall i :: 0 <= i < |s| ==> s[i] < size
    decreases if written < size then size - written else 0
  {
    if written >= size || Chunk(c, size) == [] then [] else
    Chunk(c, size) + Emitted(size, stride, Advance(c, stride, size), written + |Chunk(c, size)|)
  }

  function BytesAt(file: seq<Byte>, positions: seq<nat>): (s: seq<Byte>)
    requires forall i :: 0 <= i < |positions| ==> positions[i] < |file|
    ensures |s| == |positions|
  {
    seq(|positions|, i requires 0 <= i < |positions| => file[positions[i]])
  }

  /** What stridecat61 writes from the cursor on. */
  function StrideOut(file: seq<Byte>, stride: nat, c: Cursor, written: nat): seq<Byte> {
    BytesAt(file, Emitted(|file|, stride, c, written))
  }

  /** How much ostridecat61 asks for; the difference may be negative, and is then very large as a size_t. */
  function AmountAt(c: Cursor, size: nat): nat {
    if SizeT(c.pos + c.block) > size then SizeT(size - c.pos) else c.block
  }

  /** The part of the input that ostridecat61 reads next. */
  function NextPart(input: seq<Byte>, c: Cursor, written: nat): seq<Byte> {
    BytesAt(input, Chunk(Cursor(written, AmountAt(c, |input|)), |input|))
  }

  /** What ostridecat61 makes of the file when it has read written bytes of its input. */
  function Restored(input: seq<Byte>, stride: nat, c: Cursor, written: nat, content: seq<Byte>): seq<Byte>
    decreases if written < |input| then |input| - written else 0
  {
    var part := NextPart(input, c, written);
    if written >= |input| || part == [] then content else
    Restored(input, stride, Advance(c, stride, |input|), written + |part|, WriteAt(content, c.pos, part))
  }

  /** io61_read of at most n bytes at pos. */
  method ReadBytes(file: seq<Byte>, pos: nat, n: nat) returns (bytes: seq<Byte>)
    ensures bytes == SlowRead(file, pos, n)
    ensures bytes == BytesAt(file, Chunk(Cursor(pos, n), |file|))
  {
    SlowReadIsSlice(file, pos, n);
    bytes := if pos < |file| then file[pos..Min(pos + n, |file|)] else [];
  }

  /** The end of both drivers' loop bodies. */
  method MoveOn(pos: nat, block: nat, stride: nat, size: nat) returns (pos': nat, block': nat)
    requires stride == 0 ==> SizeT(pos) < size
    ensures Cursor(pos', block') == Advance(Cursor(pos, block), stride, size)
    ensures stride == 0 ==> pos' == SizeT(pos)
  {
    pos', block' := SizeT(pos + stride), block;
    if pos' >= size {
      RemainderIsModulo(pos', stride);
      pos' := SizeT(pos' % stride + block);
      if SizeT(pos' + block) > stride {
        block' := SizeT(stride - pos');
      }
    }
  }

  /** stridecat61, with written bytes in out and the cursor at c, will have written goal. */
  predicate LeadsTo(file: seq<Byte>, stride: nat, c: Cursor, written: nat, out: seq<Byte>, goal: seq<Byte>) {
    out + StrideOut(file, stride, c, written) == goal
  }

  lemma StrideOutStep(file: seq<Byte>, stride: nat, c: Cursor, written: nat)
    requires written < |file| && Chunk(c, |file|) != []
    ensures StrideOut(file, stride, c, written) ==
              BytesAt(file, Chunk(c, |file|))
              + StrideOut(file, stride, Advance(c, stride, |file|), written + |Chunk(c, |file|)|)
  {
  }

  lemma LeadsOn(file: seq<Byte>, stride: nat, c: Cursor, written: nat, out: seq<Byte>, bytes: seq<Byte>,
                goal: seq<Byte>)
    requires LeadsTo(file, stride, c, written, out, goal)
    requires written < |file| && bytes == BytesAt(file, Chunk(c, |file|))
    ensures if bytes == [] then goal == out
            else LeadsTo(file, stride, Advance(c, stride, |file|), written + |bytes|, out + bytes, goal)
  {
    if bytes != [] {
      StrideOutStep(file, stride, c, written);
    }
  }

  /** The loop of stridecat61's main */
  method StrideCat(file: seq<Byte>, blockSize: nat, stride: nat) returns (out: seq<Byte>)
    requires 0 < blockSize < SIZE_MODULUS && stride < SIZE_MODULUS && |file| <= SSIZE_MAX
    ensures out == StrideOut(file, stride, Cursor(0, blockSize), 0)
  {
    var pos: nat, written: nat, block: nat := 0, 0, blockSize;
    out := [];
    ghost var goal := StrideOut(file, stride, Cursor(0, blockSize), 0);
    while written < |file|
      invariant LeadsTo(file, stride, Cursor(pos, block), written, out, goal)
      invariant stride == 0 ==> pos == 0
      decreases |file| - written
    {
      var bytes := ReadBytes(file, pos, block);
      LeadsOn(file, stride, Cursor(pos, block), written, out, bytes, goal);
      if |bytes| == 0 {
        break;
      }
      out := out + bytes;
      written := written + |bytes|;
      pos, block := MoveOn(pos, block, stride, |file|);
    }
  }

  /** ostridecat61, with written bytes behind it and the cursor at c, will turn content into goal. */
  predicate RestoresTo(input: seq<Byte>, stride: nat, c: Cursor, written: nat, content: seq<Byte>, goal: seq<Byte>) {
    Restored(input, stride, c, written, content) == goal
  }

  lemma RestoredStep(input: seq<Byte>, stride: nat, c: Cursor, written: nat, content: seq<Byte>, bytes: seq<Byte>,
                     goal: seq<Byte>, c': Cursor, written': nat, content': seq<Byte>)
    requires RestoresTo(input, stride, c, written, content, goal)
    requires written < |input| && bytes == NextPart(input, c, written) && bytes != []
    requires c' == Advance(c, stride, |input|) && written' == written + |bytes|
    requires content' == WriteAt(content, c.pos, bytes)
    ensures RestoresTo(input, stride, c', written', content', goal)
  {
  }

  /** How much ostridecat61 reads for its next block. */
  method Amount(pos: nat, block: nat, size: nat) returns (amount: nat)
    ensures amount == AmountAt(Cursor(pos, block), size)
  {
    amount := block;
    if SizeT(pos + block) > size {
      amount := SizeT(size - pos);
    }
  }

  /** The loop of ostridecat61's main, writing over content */
  method OStrideCat(input: seq<Byte>, blockSize: nat, stride: nat, content: seq<Byte>) returns (disk: Disk)
    requires 0 < blockSize < SIZE_MODULUS && stride < SIZE_MODULUS && |input| <= SSIZE_MAX
    ensures disk.content == Restored(input, stride, Cursor(0, blockSize), 0, content)
  {
    var pos: nat, written: nat, block: nat := 0, 0, blockSize;
    disk := Disk(content, 0);
    ghost var goal := Restored(input, stride, Cursor(0, blockSize), 0, content);
    while written < |input|
      invariant disk.pos == pos && (stride == 0 ==> pos == 0)
      invariant RestoresTo(input, stride, Cursor(pos, block), written, disk.content, goal)
      decreases |input| - written
    {
      ghost var c, before, held := Cursor(pos, block), written, disk.content;
      var amount := Amount(pos, block, |input|);
      var bytes := ReadBytes(input, written, amount);
      if |bytes| == 0 {
        break;
      }
      disk := Written(disk, bytes);
      written := written + |bytes|;
      pos, block := MoveOn(pos, block, stride, |input|);
      disk := SlowSeek(disk, pos);
      RestoredStep(input, stride, c, before, held, bytes, goal, Cursor(pos, block), written, disk.content);
    }
  }

  // Columns

  /** Byte p lies in a column that is finished, or in the current ones above row k. */
  predicate Covered(p: nat, stride: nat, k: nat, col: nat, block: nat)
    requires stride > 0
  {
    p % stride < col || (p % stride < col + block && p / stride < k)
  }

  ghost function CoveredSet(size: nat, stride: nat, k: nat, col: nat, block: nat): set<nat>
    requires stride > 0
  {
    set p: nat | p < size && Covered(p, stride, k, col, block)
  }

  /** The cursor is in row k of the block columns from col on, and exactly written bytes are covered. */
  ghost predicate InColumn(size: nat, stride: nat, c: Cursor, written: nat, k: nat, col: nat) {
    && 0 < stride < SIZE_MODULUS
    && c.pos == k * stride + col && col + c.block <= stride
    && (k > 0 ==> c.pos < size) && (c.block == 0 ==> col == stride)
    && written == |CoveredSet(size, stride, k, col, c.block)|
  }

  lemma AtLeastOnce(a: nat, b: nat)
    requires a >= 1
    ensures a * b >= b
  {
  }

  lemma RowAndColumn(p: nat, k: nat, r: nat, stride: nat)
    requires r < stride && p == k * stride + r
    ensures p / stride == k && p % stride == r
  {
    var q := p / stride;
    assert p == q * stride + p % stride;
    assert (k - q) * stride == k * stride - q * stride && (q - k) * stride == q * stride - k * stride;
    if q < k {
      AtLeastOnce(k - q, stride);
    } else if q > k {
      AtLeastOnce(q - k, stride);
    }
  }

  predicate Within(c: Cursor, p: nat) {
    c.pos <= p < c.pos + c.block
  }

  /** In which row and column a byte of the current chunk is. */
  lemma InChunk(stride: nat, c: Cursor, k: nat, col: nat, p: nat)
    requires 0 < stride && c.pos == k * stride + col && col + c.block <= stride
    ensures Within(c, p) <==> p / stride == k && col <= p % stride < col + c.block
  {
    assert p == p / stride * stride + p % stride;
    if Within(c, p) {
      RowAndColumn(p, k, p - k * stride, stride);
    }
  }

  /** As long as not everything has been written, there is something to read at the cursor. */
  lemma MoreToRead(size: nat, stride: nat, c: Cursor, written: nat, k: nat, col: nat)
    requires InColumn(size, stride, c, written, k, col)
    ensures written <= size
    ensures written < size ==> Chunk(c, size) != []
    ensures written == size ==> forall p :: 0 <= p < size ==> Covered(p, stride, k, col, c.block)
  {
    var all := CoveredSet(size, stride, k, col, c.block);
    var everything := CoveredSet(size, stride, 0, stride, 0);
    BelowSize(everything, size);
    SubsetSize(all, everything);
    if written == size {
      SubsetSameSize(all, everything);
      forall p | 0 <= p < size
        ensures Covered(p, stride, k, col, c.block)
      {
        assert p in everything;
      }
    }
    if Chunk(c, size) == [] {
      forall p | p in everything
        ensures p in all
      {
        if k == 0 {
          SmallMod(p, stride);
        }
      }
      assert all == everything;
    }
  }

  lemma SmallMod(p: nat, stride: nat)
    requires stride > 0
    ensures p < stride ==> p % stride == p && p / stride == 0
  {
    if p < stride {
      RowAndColumn(p, 0, p, stride);
    }
  }

  // One turn of either loop

  ghost function ChunkSet(c: Cursor, size: nat): set<nat> {
    set p: nat | p < size && Within(c, p)
  }

  lemma {:induction false} ChunkSetSize(c: Cursor, size: nat)
    ensures |ChunkSet(c, size)| == |Chunk(c, size)|
    decreases c.block
  {
    if c.block == 0 {
      assert ChunkSet(c, size) == {};
    } else {
      var shorter := Cursor(c.pos, c.block - 1);
      ChunkSetSize(shorter, size);
      var last := c.pos + c.block - 1;
      assert ChunkSet(c, size) == ChunkSet(shorter, size) + (if last < size then {last} else {});
    }
  }

  /** How the cursor would move on without wrap-around. */
  function Onward(c: Cursor, stride: nat, size: nat): Cursor
    requires stride > 0
  {
    var pos := c.pos + stride;
    if pos < size then Cursor(pos, c.block) else
    var top := Remainder(pos, stride) + c.block;
    Cursor(top, if top + c.block > stride && top <= stride then stride - top else c.block)
  }

  lemma NextTop(size: nat, stride: nat, c: Cursor, k: nat, col: nat)
    requires 0 < stride < SIZE_MODULUS && c.pos + stride == (k + 1) * stride + col && col < stride
    requires c.pos + stride >= size && col + c.block <= stride
    ensures Onward(c, stride, size) ==
              Cursor(col + c.block, if col + c.block + c.block > stride then stride - (col + c.block) else c.block)
  {
    RowAndColumn(c.pos + stride, k + 1, col, stride);
    RemainderIsModulo(c.pos + stride, stride);
  }

  /** After a turn the cursor is in the next row, or at the top of the columns to the right. */
  lemma NextColumn(size: nat, stride: nat, c: Cursor, k: nat, col: nat) returns (k': nat, col': nat)
    requires 0 < stride < SIZE_MODULUS
    requires c.pos == k * stride + col && 0 < c.block && col + c.block <= stride
    ensures var c' := Onward(c, stride, size);
      && c'.pos == k' * stride + col' && col' + c'.block <= stride
      && (k' > 0 ==> c'.pos < size) && (c'.block == 0 ==> col' == stride)
    ensures if c.pos + stride < size then k' == k + 1 && col' == col && Onward(c, stride, size).block == c.block
            else k' == 0 && col' == col + c.block
  {
    assert c.pos + stride == (k + 1) * stride + col;
    if c.pos + stride < size {
      k', col' := k + 1, col;
    } else {
      NextTop(size, stride, c, k, col);
      k', col' := 0, col + c.block;
    }
  }

  /** Whether a byte is covered after a turn. */
  lemma CoveredNext(size: nat, stride: nat, c: Cursor, k: nat, col: nat, p: nat)
    requires 0 < stride && c.pos == k * stride + col && col + c.block <= stride && p < size
    ensures Covered(p, stride, k, col, c.block) || Within(c, p) <==> Covered(p, stride, k + 1, col, c.block)
    ensures c.pos + stride >= size ==>
              (Covered(p, stride, k, col, c.block) || Within(c, p) <==> p % stride < col + c.block)
  {
    InChunk(stride, c, k, col, p);
    if col <= p % stride && p / stride > k {
      RowsAbove(p, stride, k, col);
      assert (k + 1) * stride + col == c.pos + stride;
    }
  }

  /** A byte in a lower row and not further left comes at least one stride later. */
  lemma RowsAbove(p: nat, stride: nat, k: nat, col: nat)
    requires 0 < stride && p / stride > k && col <= p % stride
    ensures p >= (k + 1) * stride + col
  {
    assert p == p / stride * stride + p % stride;
    assert (p / stride - k) * stride == p / stride * stride - k * stride;
    AtLeastOnce(p / stride - k, stride);
  }

  /** A turn covers the bytes of the chunk, which were not covered before. */
  lemma TurnCovers(size: nat, stride: nat, c: Cursor, k: nat, col: nat, k': nat, col': nat, block': nat)
    requires 0 < stride && c.pos == k * stride + col && col + c.block <= stride
    requires if c.pos + stride < size then k' == k + 1 && col' == col && block' == c.block
             else k' == 0 && col' == col + c.block
    ensures forall p :: 0 <= p < size ==>
              (Covered(p, stride, k', col', block') <==> Covered(p, stride, k, col, c.block) || Within(c, p))
    ensures forall p :: 0 <= p < size && Within(c, p) ==> !Covered(p, stride, k, col, c.block)
  {
    forall p | 0 <= p < size
      ensures Covered(p, stride, k', col', block') <==> Covered(p, stride, k, col, c.block) || Within(c, p)
      ensures Within(c, p) ==> !Covered(p, stride, k, col, c.block)
    {
      CoveredNext(size, stride, c, k, col, p);
      InChunk(stride, c, k, col, p);
    }
  }

  lemma CoveredSetGrows(size: nat, stride: nat, c: Cursor, k: nat, col: nat, k': nat, col': nat, block': nat)
    requires 0 < stride
    requires forall p :: 0 <= p < size ==>
               (Covered(p, stride, k', col', block') <==> Covered(p, stride, k, col, c.block) || Within(c, p))
    requires forall p :: 0 <= p < size && Within(c, p) ==> !Covered(p, stride, k, col, c.block)
    ensures |CoveredSet(size, stride, k', col', block')| ==
              |CoveredSet(size, stride, k, col, c.block)| + |Chunk(c, size)|
  {
    ChunkSetSize(c, size);
    assert CoveredSet(size, stride, k', col', block') == CoveredSet(size, stride, k, col, c.block) + ChunkSet(c, size);
    assert CoveredSet(size, stride, k, col, c.block) !! ChunkSet(c, size);
  }

  lemma NextTurn(size: nat, stride: nat, c: Cursor, written: nat, k: nat, col: nat, c': Cursor)
    returns (k': nat, col': nat)
    requires InColumn(size, stride, c, written, k, col) && written < size && c' == Onward(c, stride, size)
    ensures InColumn(size, stride, c', written + |Chunk(c, size)|, k', col')
    ensures if c.pos + stride < size then col' == col else col' == col + c.block
    ensures forall p :: 0 <= p < size ==>
              (Covered(p, stride, k', col', c'.block) <==> Covered(p, stride, k, col, c.block) || Within(c, p))
    ensures forall p :: 0 <= p < size && Within(c, p) ==> !Covered(p, stride, k, col, c.block)
  {
    assert c.block > 0 by { MoreToRead(size, stride, c, written, k, col); }
    k', col' := NextColumn(size, stride, c, k, col);
    TurnCovers(size, stride, c, k, col, k', col', c'.block);
    CoveredSetGrows(size, stride, c, k, col, k', col', c'.block);
  }

  lemma AtTheStart(size: nat, stride: nat, blockSize: nat)
    requires 0 < blockSize <= stride < SIZE_MODULUS
    ensures InColumn(size, stride, Cursor(0, blockSize), 0, 0, 0)
  {
    assert CoveredSet(size, stride, 0, 0, blockSize) == {};
  }

  // Where the position wraps around

  predicate Multiple(p: nat, b: nat)
    requires b > 0
  {
    p == 0 || (p >= b && Multiple(p - b, b))
  }

  /** The least multiple of b from x on. */
  function RoundUp(x: nat, b: nat): (r: nat)
    requires b > 0
    ensures x <= r < x + b && Multiple(r, b)
  {
    if x == 0 then 0 else if x <= b then b else b + RoundUp(x - b, b)
  }

  /** Multiples are at least a multiple's distance apart. */
  lemma {:induction false} NextMultiple(p: nat, q: nat, b: nat)
    requires b > 0 && Multiple(p, b) && Multiple(q, b)
    ensures p < q ==> p + b <= q
  {
    if 0 < p < q {
      NextMultiple(p - b, q - b, b);
    }
  }

  /** The first top of a column from which pos += stride wraps around. */
  function FirstWrap(stride: nat, block: nat): nat
    requires block > 0 && stride < SIZE_MODULUS
  {
    RoundUp(SIZE_MODULUS - stride, block)
  }

  /** Blocks do not overlap, and no column from which the position wraps around is followed by another one. */
  predicate Tiles(size: nat, stride: nat, block: nat)
    requires block > 0 && stride < SIZE_MODULUS
  {
    block <= stride && FirstWrap(stride, block) + block >= size
  }

  /** Columns begin at multiples of the block size, but for the narrower last one. */
  predicate OnGrid(stride: nat, block: nat, c: Cursor, col: nat)
    requires block > 0
  {
    (c.block == block && Multiple(col, block)) || col + c.block == stride
  }

  /** The cursor is where it should be in the columns of a file that the blocks tile. */
  ghost predicate Tiling(size: nat, stride: nat, block: nat, c: Cursor, written: nat, k: nat, col: nat) {
    && block > 0 && size <= SSIZE_MAX && InColumn(size, stride, c, written, k, col)
    && OnGrid(stride, block, c, col) && Tiles(size, stride, block)
  }

  lemma StaysOnGrid(size: nat, stride: nat, block: nat, c: Cursor, k: nat, col: nat, col': nat)
    requires 0 < stride < SIZE_MODULUS && c.pos == k * stride + col && col + c.block <= stride && c.block > 0
    requires block > 0 && OnGrid(stride, block, c, col)
    requires if c.pos + stride < size then col' == col else col' == col + c.block
    ensures OnGrid(stride, block, Onward(c, stride, size), col')
  {
    if c.pos + stride >= size {
      assert c.pos + stride == (k + 1) * stride + col;
      NextTop(size, stride, c, k, col);
    }
  }

  /** From a column that is followed by another one, the position does not wrap around. */
  lemma NoWrap(size: nat, stride: nat, block: nat, c: Cursor, col: nat)
    requires 0 < block && stride < SIZE_MODULUS && Tiles(size, stride, block) && OnGrid(stride, block, c, col)
    requires col + c.block < size <= stride
    ensures col + stride < SIZE_MODULUS
  {
    if c.block == block && Multiple(col, block) {
      NextMultiple(col, FirstWrap(stride, block), block);
    }
  }

  lemma RoomToAdvance(size: nat, stride: nat, block: nat, c: Cursor, k: nat, col: nat)
    requires 0 < block && stride < SIZE_MODULUS && size <= SSIZE_MAX && Tiles(size, stride, block)
    requires OnGrid(stride, block, c, col) && c.pos == k * stride + col && c.pos < size
    requires c.pos + stride >= size ==> col + c.block < size
    ensures c.pos + stride < SIZE_MODULUS
  {
    if stride > SSIZE_MAX {
      FirstRow(size, stride, c, k, col);
      NoWrap(size, stride, block, c, col);
    }
  }

  lemma AdvanceIsOnward(size: nat, stride: nat, c: Cursor, col: nat)
    requires 0 < stride && c.pos + stride < SIZE_MODULUS && size <= SSIZE_MAX
    requires Remainder(c.pos + stride, stride) == col && col + c.block <= stride
    requires c.pos + stride >= size ==> col + c.block < size
    ensures Advance(c, stride, size) == Onward(c, stride, size)
  {
  }

  lemma ColumnBelow(c: Cursor, stride: nat, k: nat, col: nat)
    requires c.pos == k * stride + col && col < stride
    ensures Remainder(c.pos + stride, stride) == col
  {
    assert c.pos + stride == (k + 1) * stride + col;
    RowAndColumn(c.pos + stride, k + 1, col, stride);
    RemainderIsModulo(c.pos + stride, stride);
  }

  /** As long as there is more to come, nothing wraps around. */
  lemma AdvancesOnward(size: nat, stride: nat, block: nat, c: Cursor, k: nat, col: nat)
    requires 0 < block && 0 < stride < SIZE_MODULUS && size <= SSIZE_MAX && Tiles(size, stride, block)
    requires OnGrid(stride, block, c, col) && c.pos == k * stride + col && col + c.block <= stride && 0 < c.block
    requires c.pos < size && Onward(c, stride, size).pos < size
    ensures Advance(c, stride, size) == Onward(c, stride, size)
  {
    ColumnBelow(c, stride, k, col);
    assert c.pos + stride >= size ==> col + c.block < size;
    assert c.pos + stride < SIZE_MODULUS by { RoomToAdvance(size, stride, block, c, k, col); }
    AdvanceIsOnward(size, stride, c, col);
  }

  lemma TilingGoesOn(size: nat, stride: nat, block: nat, c: Cursor, written: nat, k: nat, col: nat, c': Cursor,
                     k': nat, col': nat)
    requires Tiling(size, stride, block, c, written, k, col) && c' == Onward(c, stride, size)
    requires InColumn(size, stride, c', written + |Chunk(c, size)|, k', col') && written + |Chunk(c, size)| < size
    requires if c.pos + stride < size then col' == col else col' == col + c.block
    ensures Advance(c, stride, size) == c'
    ensures Tiling(size, stride, block, c', written + |Chunk(c, size)|, k', col')
  {
    MoreToRead(size, stride, c, written, k, col);
    MoreToRead(size, stride, c', written + |Chunk(c, size)|, k', col');
    AdvancesOnward(size, stride, block, c, k, col);
    StaysOnGrid(size, stride, block, c, k, col, col');
  }

  lemma FirstRow(size: nat, stride: nat, c: Cursor, k: nat, col: nat)
    requires c.pos == k * stride + col && c.pos < size <= stride
    ensures k == 0 && c.pos == col
  {
    if k > 0 {
      AtLeastOnce(k, stride);
    }
  }

  // Each byte once

  /** s holds exactly the bytes that are not covered, each once. */
  predicate Uncovered(s: seq<nat>, size: nat, written: nat, stride: nat, k: nat, col: nat, block: nat)
    requires 0 < stride
  {
    && |s| == size - written
    && (forall p :: 0 <= p < size ==> (p in s <==> !Covered(p, stride, k, col, block)))
    && (forall i, j :: 0 <= i < j < |s| ==> s[i] != s[j])
  }

  lemma InChunkSeq(c: Cursor, size: nat, p: nat)
    requires p < size
    ensures p in Chunk(c, size) <==> Within(c, p)
  {
    if Within(c, p) {
      assert Chunk(c, size)[p - c.pos] == p;
    }
  }

  /** The bytes of the chunk and those that are not covered after the turn. */
  lemma UncoveredBefore(chunk: seq<nat>, rest: seq<nat>, size: nat, written: nat, stride: nat, c: Cursor,
                        k: nat, col: nat, k': nat, col': nat, block': nat)
    requires 0 < stride && chunk == Chunk(c, size)
    requires Uncovered(rest, size, written + |chunk|, stride, k', col', block') && forall p :: p in rest ==> p < size
    requires forall p :: 0 <= p < size ==>
               (Covered(p, stride, k', col', block') <==> Covered(p, stride, k, col, c.block) || Within(c, p))
    requires forall p :: 0 <= p < size && Within(c, p) ==> !Covered(p, stride, k, col, c.block)
    ensures Uncovered(chunk + rest, size, written, stride, k, col, c.block)
  {
    forall p | 0 <= p < size
      ensures p in chunk + rest <==> !Covered(p, stride, k, col, c.block)
    {
      InChunkSeq(c, size, p);
    }
    forall p | p in chunk
      ensures p !in rest
    {
      InChunkSeq(c, size, p);
    }
    JoinDistinct(chunk, rest);
  }

  /** From the cursor on, exactly the bytes that are not covered are emitted, each once. */
  lemma {:induction false} EmitsTheRest(size: nat, stride: nat, block: nat, c: Cursor, written: nat, k: nat, col: nat)
    requires Tiling(size, stride, block, c, written, k, col)
    ensures Uncovered(Emitted(size, stride, c, written), size, written, stride, k, col, c.block)
    decreases size - written
  {
    MoreToRead(size, stride, c, written, k, col);
    if written < size {
      var c', chunk := Onward(c, stride, size), Chunk(c, size);
      var k', col' := NextTurn(size, stride, c, written, k, col, c');
      var rest := Emitted(size, stride, Advance(c, stride, size), written + |chunk|);
      assert Uncovered(rest, size, written + |chunk|, stride, k', col', c'.block) by {
        MoreToRead(size, stride, c', written + |chunk|, k', col');
        if written + |chunk| < size {
          TilingGoesOn(size, stride, block, c, written, k, col, c', k', col');
          EmitsTheRest(size, stride, block, c', written + |chunk|, k', col');
        }
      }
      assert Emitted(size, stride, c, written) == chunk + rest;
      UncoveredBefore(chunk, rest, size, written, stride, c, k, col, k', col', c'.block);
    }
  }

  lemma JoinDistinct(a: seq<nat>, b: seq<nat>)
    requires forall i, j :: 0 <= i < j < |a| ==> a[i] != a[j]
    requires forall i, j :: 0 <= i < j < |b| ==> b[i] != b[j]
    requires forall x :: x in a ==> x !in b
    ensures forall i, j :: 0 <= i < j < |a + b| ==> (a + b)[i] != (a + b)[j]
  {
    forall i, j | 0 <= i < j < |a + b|
      ensures (a + b)[i] != (a + b)[j]
    {
      if i < |a| <= j {
        assert a[i] in a && b[j - |a|] in b;
      }
    }
  }

  /** s contains each number below size exactly once. */
  predicate EachOnce(s: seq<nat>, size: nat) {
    && |s| == size
    && (forall p :: 0 <= p < size ==> p in s)
    && (forall i, j :: 0 <= i < j < |s| ==> s[i] != s[j])
  }

  lemma NothingCovered(stride: nat, block: nat)
    requires 0 < stride
    ensures forall p: nat :: !Covered(p, stride, 0, 0, block)
  {
  }

  lemma StartsTiling(size: nat, stride: nat, block: nat)
    requires 0 < block && stride < SIZE_MODULUS && size <= SSIZE_MAX && Tiles(size, stride, block)
    ensures Tiling(size, stride, block, Cursor(0, block), 0, 0, 0)
  {
    AtTheStart(size, stride, block);
  }

  lemma TiledBlocks(size: nat, stride: nat, block: nat)
    requires 0 < block && stride < SIZE_MODULUS && size <= SSIZE_MAX && Tiles(size, stride, block)
    ensures EachOnce(Emitted(size, stride, Cursor(0, block), 0), size)
  {
    StartsTiling(size, stride, block);
    EmitsTheRest(size, stride, block, Cursor(0, block), 0, 0, 0);
    NothingCovered(stride, block);
  }

  lemma OneBlock(size: nat, stride: nat, c: Cursor)
    requires c.pos == 0 && size <= c.block && 0 < c.block
    ensures EachOnce(Emitted(size, stride, c, 0), size)
  {
    var s := Emitted(size, stride, c, 0);
    assert |Chunk(c, size)| == size;
    assert Emitted(size, stride, Advance(c, stride, size), size) == [];
    assert s == Chunk(c, size) + [];
    forall p | 0 <= p < size
      ensures p in s
    {
      assert s[p] == p;
    }
  }

  /** Blocks that are longer than the stride overlap. */
  lemma WideBlocks(size: nat, stride: nat, c: Cursor)
    requires c.pos == 0 && stride < c.block < size <= SSIZE_MAX
    ensures !EachOnce(Emitted(size, stride, c, 0), size)
  {
    var s := Emitted(size, stride, c, 0);
    var c1 := Cursor(stride, c.block);
    assert Advance(c, stride, size) == c1;
    assert s == Chunk(c, size) + Emitted(size, stride, c1, c.block);
    assert s[stride] == stride == Chunk(c1, size)[0] == s[c.block];
  }

  lemma NextTopOnGrid(size: nat, stride: nat, block: nat, p: nat)
    requires 0 < block <= stride && size <= SSIZE_MAX && p + block + block < size <= stride
    requires p + stride < SIZE_MODULUS
    ensures Advance(Cursor(p, block), stride, size) == Cursor(p + block, block)
  {
    assert Remainder(p + stride, stride) == Remainder(p, stride) == p;
  }

  lemma FallsBack(size: nat, stride: nat, block: nat, p: nat)
    requires stride < SIZE_MODULUS <= p + stride && p < size <= SSIZE_MAX
    ensures Advance(Cursor(p, block), stride, size) == Cursor(p - (SIZE_MODULUS - stride), block)
  {
    assert SizeT(p + stride) == SizeT(p + stride - SIZE_MODULUS);
  }

  /** The i-th byte from the cursor on is the one at p. */
  predicate EmitsAt(size: nat, stride: nat, c: Cursor, written: nat, i: nat, p: nat) {
    var s := Emitted(size, stride, c, written);
    i < |s| && s[i] == p
  }

  lemma EmitsFirst(size: nat, stride: nat, c: Cursor, written: nat, i: nat)
    requires written < size && i < c.block && c.pos + i < size
    ensures EmitsAt(size, stride, c, written, i, c.pos + i)
  {
    assert Chunk(c, size)[i] == c.pos + i;
  }

  lemma EmitsLater(size: nat, stride: nat, c: Cursor, c': Cursor, written: nat, i: nat, p: nat)
    requires written < size && 0 < c.block && c.pos + c.block <= size && c' == Advance(c, stride, size)
    requires EmitsAt(size, stride, c', written + c.block, i, p)
    ensures EmitsAt(size, stride, c, written, c.block + i, p)
  {
    assert |Chunk(c, size)| == c.block;
  }

  /** From the top of the column at last, where the position wraps around, to the byte that comes after the column. */
  lemma ComesBackNow(size: nat, stride: nat, block: nat, last: nat)
    requires 0 < block <= stride < SIZE_MODULUS && size <= SSIZE_MAX && last + block < size
    requires SIZE_MODULUS - stride <= last < SIZE_MODULUS - stride + block
    ensures EmitsAt(size, stride, Cursor(last, block), last, block, last - (SIZE_MODULUS - stride))
  {
    var c' := Cursor(last - (SIZE_MODULUS - stride), block);
    FallsBack(size, stride, block, last);
    EmitsFirst(size, stride, c', last + block, 0);
    EmitsLater(size, stride, Cursor(last, block), c', last, 0, c'.pos);
  }

  lemma OneColumnOn(size: nat, stride: nat, block: nat, p: nat, i: nat, b: nat)
    requires 0 < block <= stride && size <= SSIZE_MAX && p + block + block < size <= stride
    requires p + stride < SIZE_MODULUS
    ensures EmitsAt(size, stride, Cursor(p + block, block), p + block, i, b)
            ==> EmitsAt(size, stride, Cursor(p, block), p, block + i, b)
  {
    NextTopOnGrid(size, stride, block, p);
    if EmitsAt(size, stride, Cursor(p + block, block), p + block, i, b) {
      EmitsLater(size, stride, Cursor(p, block), Cursor(p + block, block), p, i, b);
    }
  }

  /**
   * From the top of a column at p, with the position about to wrap around i bytes later, the byte that comes right
   * after the column there is one of the first block.
   */
  lemma {:induction false} ComesBack(size: nat, stride: nat, block: nat, p: nat, i: nat, b: nat)
    requires 0 < block <= stride < SIZE_MODULUS && size <= SSIZE_MAX && p + i + block < size
    requires Multiple(p, block) && Multiple(p + i, block) && b == p + i - (SIZE_MODULUS - stride)
    requires SIZE_MODULUS - stride <= p + i < SIZE_MODULUS - stride + block
    ensures EmitsAt(size, stride, Cursor(p, block), p, block + i, b)
    decreases i
  {
    if i == 0 {
      ComesBackNow(size, stride, block, p);
    } else {
      NextMultiple(p, p + i, block);
      assert p + i == (p + block) + (i - block) && block + (i - block) == i;
      ComesBack(size, stride, block, p + block, i - block, b);
      OneColumnOn(size, stride, block, p, i, b);
    }
  }

  lemma WrapsEarly(size: nat, stride: nat, c: Cursor)
    requires c.pos == 0 && 0 < c.block <= stride < SIZE_MODULUS && size <= SSIZE_MAX
    requires FirstWrap(stride, c.block) + c.block < size
    ensures !EachOnce(Emitted(size, stride, c, 0), size)
  {
    var last := FirstWrap(stride, c.block);
    var again := last - (SIZE_MODULUS - stride);
    ComesBack(size, stride, c.block, 0, last, again);
    EmitsFirst(size, stride, c, 0, again);
    assert Emitted(size, stride, c, 0)[again] == again == Emitted(size, stride, c, 0)[c.block + last];
  }

  /**
   * stridecat61 emits every byte of the file exactly once if, and only if, the blocks tile it or it fits into one
   * block.
   */
  lemma EmitsEachOnce(size: nat, stride: nat, blockSize: nat)
    requires 0 < blockSize < SIZE_MODULUS && stride < SIZE_MODULUS && size <= SSIZE_MAX
    ensures EachOnce(Emitted(size, stride, Cursor(0, blockSize), 0), size)
            <==> Tiles(size, stride, blockSize) || size <= blockSize
  {
    var c := Cursor(0, blockSize);
    if Tiles(size, stride, blockSize) {
      TiledBlocks(size, stride, blockSize);
    } else if size <= blockSize {
      OneBlock(size, stride, c);
    } else if stride < blockSize {
      WideBlocks(size, stride, c);
    } else {
      WrapsEarly(size, stride, c);
    }
  }

  /** Short of strides near the end of the address space, blocks tile as soon as they do not overlap. */
  lemma TilesBelow(size: nat, stride: nat, blockSize: nat)
    requires 0 < blockSize <= stride && size + stride <= SIZE_MODULUS && 0 < size
    ensures Tiles(size, stride, blockSize)
  {
  }

  // The round trip

  /** What an older and longer file holds behind the first n bytes. */
  function Behind(content: seq<Byte>, n: nat): seq<Byte> {
    if |content| > n then content[n..] else []
  }

  /** All covered bytes of the file are already in place in content, and what lies behind the file is untouched. */
  predicate InPlace(file: seq<Byte>, stride: nat, k: nat, col: nat, block: nat, content: seq<Byte>, rest: seq<Byte>)
    requires 0 < stride
  {
    && Behind(content, |file|) == rest
    && (forall p :: 0 <= p < |file| && Covered(p, stride, k, col, block) ==> p < |content| && content[p] == file[p])
  }

  lemma WriteInPlace(file: seq<Byte>, stride: nat, c: Cursor, written: nat, k: nat, col: nat, k': nat, col': nat,
                     content: seq<Byte>, rest: seq<Byte>)
    requires InColumn(|file|, stride, c, written, k, col) && written < |file|
    requires InPlace(file, stride, k, col, c.block, content, rest)
    requires var c' := Onward(c, stride, |file|);
      forall p :: 0 <= p < |file| ==>
        (Covered(p, stride, k', col', c'.block) <==>
          Covered(p, stride, k, col, c.block) || Within(c, p))
    ensures InPlace(file, stride, k', col', Onward(c, stride, |file|).block,
                    WriteAt(content, c.pos, BytesAt(file, Chunk(c, |file|))), rest)
  {
    MoreToRead(|file|, stride, c, written, k, col);
    var bytes := BytesAt(file, Chunk(c, |file|));
    var content' := WriteAt(content, c.pos, bytes);
    var c' := Onward(c, stride, |file|);
    WriteInside(content, c.pos, bytes, |file|);
    forall p | 0 <= p < |file| && Covered(p, stride, k', col', c'.block)
      ensures p < |content'| && content'[p] == file[p]
    {
      if p < |content'| {
        ByteWritten(content, c.pos, bytes, p);
      }
    }
  }

  /** A write that stays inside the first n bytes leaves what lies behind them alone. */
  lemma WriteInside(content: seq<Byte>, pos: nat, bytes: seq<Byte>, n: nat)
    requires pos + |bytes| <= n
    ensures Behind(WriteAt(content, pos, bytes), n) == Behind(content, n)
  {
    var content' := WriteAt(content, pos, bytes);
    forall i | n <= i < |content'|
      ensures i < |content| && content'[i] == content[i]
    {
      if bytes != [] {
        ByteWritten(content, pos, bytes, i);
      }
    }
  }

  /** When everything is covered, everything is in place. */
  lemma AllInPlace(file: seq<Byte>, stride: nat, k: nat, col: nat, block: nat, content: seq<Byte>, rest: seq<Byte>)
    requires 0 < stride && InPlace(file, stride, k, col, block, content, rest)
    requires forall p :: 0 <= p < |file| ==> Covered(p, stride, k, col, block)
    ensures content == file + rest
  {
    if |file| > 0 {
      assert Covered(|file| - 1, stride, k, col, block);
    }
  }

  /** What is left of the input is what stridecat61 emits from the cursor on. */
  predicate Feeds(input: seq<Byte>, written: nat, file: seq<Byte>, stride: nat, c: Cursor) {
    |input| == |file| && written <= |input| && input[written..] == StrideOut(file, stride, c, written)
  }

  lemma InputAdvances(file: seq<Byte>, stride: nat, c: Cursor, written: nat, input: seq<Byte>, n: nat, part: seq<Byte>)
    requires written < |file| && Feeds(input, written, file, stride, c) && Chunk(c, |file|) != []
    requires n == |Chunk(c, |file|)| && written + n <= |file| && part == BytesAt(file, Chunk(c, |file|))
    ensures part != [] && |part| == n && part == input[written..written + n]
    ensures Feeds(input, written + n, file, stride, Advance(c, stride, |file|))
  {
    StrideOutStep(file, stride, c, written);
    assert input[written..written + n] == input[written..][..n];
    assert input[written + n..] == input[written..][n..];
  }

  /** ostridecat61 asks for as much as stridecat61 has written, or for all that is left. */
  lemma AmountFits(size: nat, stride: nat, block: nat, c: Cursor, written: nat, k: nat, col: nat)
    requires Tiling(size, stride, block, c, written, k, col) && written < size
    ensures |Chunk(Cursor(written, AmountAt(c, size)), size)| == |Chunk(c, size)|
  {
    MoreToRead(size, stride, c, written, k, col);
    var c' := Onward(c, stride, size);
    var k', col' := NextTurn(size, stride, c, written, k, col, c');
    MoreToRead(size, stride, c', written + |Chunk(c, size)|, k', col');
    if c.pos + c.block >= SIZE_MODULUS {
      FirstRow(size, stride, c, k, col);
      NextTop(size, stride, c, k, col);
    }
  }

  lemma AllRestored(file: seq<Byte>, stride: nat, c: Cursor, written: nat, k: nat, col: nat, content: seq<Byte>,
                    rest: seq<Byte>)
    requires InColumn(|file|, stride, c, written, k, col) && InPlace(file, stride, k, col, c.block, content, rest)
    requires written == |file|
    ensures content == file + rest
  {
    MoreToRead(|file|, stride, c, written, k, col);
    AllInPlace(file, stride, k, col, c.block, content, rest);
  }

  lemma RestoredTurn(input: seq<Byte>, stride: nat, c: Cursor, written: nat, content: seq<Byte>, part: seq<Byte>,
                     content': seq<Byte>, goal: seq<Byte>)
    requires written < |input| && part != [] && written + |part| <= |input|
    requires |Chunk(Cursor(written, AmountAt(c, |input|)), |input|)| == |part|
    requires part == input[written..written + |part|] && content' == WriteAt(content, c.pos, part)
    ensures RestoresTo(input, stride, Advance(c, stride, |input|), written + |part|, content', goal)
            <==> RestoresTo(input, stride, c, written, content, goal)
  {
    assert NextPart(input, c, written) == part;
  }

  lemma TurnInPlace(file: seq<Byte>, stride: nat, c: Cursor, written: nat, k: nat, col: nat, content: seq<Byte>,
                    rest: seq<Byte>, c': Cursor, n: nat) returns (k': nat, col': nat)
    requires InColumn(|file|, stride, c, written, k, col) && InPlace(file, stride, k, col, c.block, content, rest)
    requires written < |file| && c' == Onward(c, stride, |file|) && n == |Chunk(c, |file|)|
    ensures 0 < n <= |file| - written && InColumn(|file|, stride, c', written + n, k', col')
    ensures if c.pos + stride < |file| then col' == col else col' == col + c.block
    ensures InPlace(file, stride, k', col', c'.block, WriteAt(content, c.pos, BytesAt(file, Chunk(c, |file|))), rest)
  {
    k', col' := NextTurn(|file|, stride, c, written, k, col, c');
    WriteInPlace(file, stride, c, written, k, col, k', col', content, rest);
    MoreToRead(|file|, stride, c, written, k, col);
    MoreToRead(|file|, stride, c', written + n, k', col');
  }

  /** One turn of ostridecat61 puts one more chunk in place. */
  lemma TurnRestores(file: seq<Byte>, stride: nat, block: nat, c: Cursor, written: nat, k: nat, col: nat,
                     input: seq<Byte>, content: seq<Byte>, content': seq<Byte>, goal: seq<Byte>, c': Cursor,
                     written': nat)
    requires Tiling(|file|, stride, block, c, written, k, col) && written < |file|
    requires Feeds(input, written, file, stride, c) && Chunk(c, |file|) != []
    requires content' == WriteAt(content, c.pos, BytesAt(file, Chunk(c, |file|)))
    requires written' == written + |Chunk(c, |file|)| <= |file| && c' == Advance(c, stride, |file|)
    ensures Feeds(input, written', file, stride, c')
    ensures RestoresTo(input, stride, c', written', content', goal)
            ==> RestoresTo(input, stride, c, written, content, goal)
  {
    var part := BytesAt(file, Chunk(c, |file|));
    InputAdvances(file, stride, c, written, input, |part|, part);
    assert |Chunk(Cursor(written, AmountAt(c, |file|)), |file|)| == |part| by {
      AmountFits(|file|, stride, block, c, written, k, col);
    }
    RestoredTurn(input, stride, c, written, content, part, content', goal);
  }

  lemma {:induction false} RestoresTheRest(file: seq<Byte>, stride: nat, block: nat, c: Cursor, written: nat,
                                           k: nat, col: nat, input: seq<Byte>, content: seq<Byte>, rest: seq<Byte>,
                                           goal: seq<Byte>)
    requires Tiling(|file|, stride, block, c, written, k, col) && InPlace(file, stride, k, col, c.block, content, rest)
    requires Feeds(input, written, file, stride, c) && goal == file + rest
    ensures RestoresTo(input, stride, c, written, content, goal)
    decreases |file| - written
  {
    if written == |file| {
      AllRestored(file, stride, c, written, k, col, content, rest);
    } else {
      var c', written' := Onward(c, stride, |file|), written + |Chunk(c, |file|)|;
      var k', col' := TurnInPlace(file, stride, c, written, k, col, content, rest, c', written' - written);
      var content' := WriteAt(content, c.pos, BytesAt(file, Chunk(c, |file|)));
      var next := Advance(c, stride, |file|);
      TurnRestores(file, stride, block, c, written, k, col, input, content, content', goal, next, written');
      if written' < |file| {
        TilingGoesOn(|file|, stride, block, c, written, k, col, c', k', col');
        assert next == c';
        RestoresTheRest(file, stride, block, c', written', k', col', input, content', rest, goal);
      } else {
        AllRestored(file, stride, c', written', k', col', content', rest);
      }
    }
  }

  /**
   * ostridecat61, given the output of stridecat61 with the same parameters, rebuilds the file over whatever was there,
   * whenever stridecat61 emits each byte once; of a longer older file only what lies behind remains.
   */
  lemma StrideRoundTrip(file: seq<Byte>, stride: nat, blockSize: nat, content: seq<Byte>)
    requires 0 < blockSize < SIZE_MODULUS && stride < SIZE_MODULUS && |file| <= SSIZE_MAX
    requires Tiles(|file|, stride, blockSize) || |file| <= blockSize
    ensures var c := Cursor(0, blockSize);
      Restored(StrideOut(file, stride, c, 0), stride, c, 0, content) == file + Behind(content, |file|)
  {
    var c := Cursor(0, blockSize);
    if Tiles(|file|, stride, blockSize) {
      RestoresAll(file, stride, blockSize, StrideOut(file, stride, c, 0), content);
    } else {
      RestoresOneBlock(file, stride, c, StrideOut(file, stride, c, 0), content);
    }
  }

  lemma RestoresAll(file: seq<Byte>, stride: nat, block: nat, input: seq<Byte>, content: seq<Byte>)
    requires 0 < block && stride < SIZE_MODULUS && |file| <= SSIZE_MAX && Tiles(|file|, stride, block)
    requires input == StrideOut(file, stride, Cursor(0, block), 0)
    ensures RestoresTo(input, stride, Cursor(0, block), 0, content, file + Behind(content, |file|))
  {
    var c, rest := Cursor(0, block), Behind(content, |file|);
    StartsTiling(|file|, stride, block);
    assert |input| == |file| by { EmitsTheRest(|file|, stride, block, c, 0, 0, 0); }
    assert Feeds(input, 0, file, stride, c) by { assert input[0..] == input; }
    assert InPlace(file, stride, 0, 0, block, content, rest) by { NothingCovered(stride, block); }
    RestoresTheRest(file, stride, block, c, 0, 0, 0, input, content, rest, file + rest);
  }

  lemma RestoresOneBlock(file: seq<Byte>, stride: nat, c: Cursor, input: seq<Byte>, content: seq<Byte>)
    requires c.pos == 0 && |file| <= c.block < SIZE_MODULUS && |file| <= SSIZE_MAX && 0 < c.block
    requires input == StrideOut(file, stride, c, 0)
    ensures Restored(input, stride, c, 0, content) == file + Behind(content, |file|)
  {
    var size := |file|;
    assert Emitted(size, stride, Advance(c, stride, size), size) == [];
    assert Emitted(size, stride, c, 0) == Chunk(c, size) + [];
    assert input == file;
    if size > 0 {
      assert SizeT(size) == size;
      assert NextPart(input, c, 0) == file;
      var whole := WriteAt(content, 0, file);
      assert Restored(input, stride, Advance(c, stride, size), size, whole) == whole;
      WriteInside(content, 0, file, size);
      WholeFile(content, file);
    }
  }

  /** Writing a whole file over another. */
  lemma WholeFile(content: seq<Byte>, file: seq<Byte>)
    requires file != []
    ensures WriteAt(content, 0, file) == file + Behind(content, |file|)
  {
    var one, two := WriteAt(content, 0, file), file + Behind(content, |file|);
    assert |one| == |two|;
    forall i | 0 <= i < |one|
      ensures one[i] == two[i]
    {
      ByteWritten(content, 0, file, i);
    }
  }

  // Output no longer than the file, in which some byte is missing

  ghost function Members(s: seq<nat>): set<nat> { set x | x in s }

  lemma {:induction false} SetOfSeq(s: seq<nat>)
    ensures |Members(s)| <= |s|
  {
    if s == [] {
      assert Members(s) == {};
    } else {
      SetOfSeq(s[1..]);
      assert Members(s) == Members(s[1..]) + {s[0]};
    }
  }

  /** As many numbers below size as there are, and all of them: then each of them once. */
  lemma AllMeansOnce(s: seq<nat>, size: nat)
    requires |s| == size && (forall i :: 0 <= i < |s| ==> s[i] < size) && (forall p :: 0 <= p < size ==> p in s)
    ensures EachOnce(s, size)
  {
    forall i, j | 0 <= i < j < |s|
      ensures s[i] != s[j]
    {
      if s[i] == s[j] {
        var r := s[..j] + s[j + 1..];
        forall p | 0 <= p < size
          ensures p in r
        {
          assert p in s;
          var k :| 0 <= k < |s| && s[k] == p;
          assert r[if k == j then i else if k < j then k else k - 1] == p;
        }
        SetOfSeq(r);
        var members := Members(r);
        assert forall x :: x in members ==> x < size;
        assert forall x :: 0 <= x < size ==> x in members;
        BelowSize(members, size);
        assert false;
      }
    }
  }

  /** The byte at p of an older file as long as the file is not the file's. */
  predicate Differs(file: seq<Byte>, content: seq<Byte>, p: nat) {
    p < |file| == |content| && content[p] != file[p]
  }

  /** The part that ostridecat61 reads is the chunk that stridecat61 emitted, or all that is left, and longer. */
  lemma PartOrRest(input: seq<Byte>, c: Cursor, written: nat, n: nat)
    requires c.block < SIZE_MODULUS && |input| <= SSIZE_MAX
    requires n == |Chunk(c, |input|)| > 0 && written + n <= |input|
    ensures |NextPart(input, c, written)| == n
         || (n < |NextPart(input, c, written)| == |input| - written && c.pos + |NextPart(input, c, written)| > |input|)
  {
    var size := |input|;
    RemainderIsModulo(c.pos + c.block, SIZE_MODULUS);
    RemainderIsModulo(size - c.pos, SIZE_MODULUS);
  }

  lemma MissedByPart(file: seq<Byte>, content: seq<Byte>, p: nat, c: Cursor, part: seq<Byte>)
    requires Differs(file, content, p) && part != [] && c.pos + |part| <= |file| && |part| == |Chunk(c, |file|)|
    requires p !in Chunk(c, |file|)
    ensures Differs(file, WriteAt(content, c.pos, part), p)
  {
    ByteWritten(content, c.pos, part, p);
    InChunkSeq(c, |file|, p);
  }

  lemma ChunkFits(file: seq<Byte>, stride: nat, c: Cursor, written: nat, input: seq<Byte>, n: nat, p: nat)
    requires written < |file| && Feeds(input, written, file, stride, c) && n == |Chunk(c, |file|)|
    requires p !in Emitted(|file|, stride, c, written)
    ensures 0 < n <= |file| - written && p !in Chunk(c, |file|)
    ensures Feeds(input, written + n, file, stride, Advance(c, stride, |file|))
    ensures p !in Emitted(|file|, stride, Advance(c, stride, |file|), written + n)
  {
    assert |input[written..]| == |StrideOut(file, stride, c, written)|;
    StrideOutStep(file, stride, c, written);
    InputAdvances(file, stride, c, written, input, n, BytesAt(file, Chunk(c, |file|)));
  }

  lemma RestoredNext(input: seq<Byte>, stride: nat, c: Cursor, written: nat, content: seq<Byte>, part: seq<Byte>,
                     goal: seq<Byte>, c': Cursor, written': nat, content': seq<Byte>)
    requires written < |input| && part == NextPart(input, c, written) && part != []
    requires c' == Advance(c, stride, |input|) && written' == written + |part|
    requires content' == WriteAt(content, c.pos, part)
    ensures RestoresTo(input, stride, c', written', content', goal)
            <==> RestoresTo(input, stride, c, written, content, goal)
  {
  }

  /** The byte at p is still to be put right, and will not come. */
  ghost predicate Missed(file: seq<Byte>, stride: nat, c: Cursor, written: nat, input: seq<Byte>, content: seq<Byte>,
                         p: nat) {
    && Feeds(input, written, file, stride, c) && p !in Emitted(|file|, stride, c, written)
    && Differs(file, content, p)
  }

  lemma MissedNext(file: seq<Byte>, stride: nat, c: Cursor, written: nat, input: seq<Byte>, content: seq<Byte>, p: nat,
                   part: seq<Byte>, c': Cursor, written': nat, content': seq<Byte>)
    requires Missed(file, stride, c, written, input, content, p) && written < |file|
    requires |part| == |Chunk(c, |file|)|
    requires c' == Advance(c, stride, |file|) && written' == written + |part|
    requires content' == WriteAt(content, c.pos, part)
    ensures Missed(file, stride, c', written', input, content', p)
  {
    ChunkFits(file, stride, c, written, input, |part|, p);
    MissedByPart(file, content, p, c, part);
  }

  lemma GrowsTooLong(input: seq<Byte>, stride: nat, c: Cursor, content: seq<Byte>, goal: seq<Byte>)
    requires |content| > |goal|
    ensures !RestoresTo(input, stride, c, |input|, content, goal)
  {
  }

  lemma BlockFits(c: Cursor, stride: nat, size: nat, c': Cursor)
    requires c.block < SIZE_MODULUS && c' == Advance(c, stride, size)
    ensures c'.block < SIZE_MODULUS
  {
  }

  /** A turn leaves the byte missed, or makes the file too long. */
  lemma MissedTurn(file: seq<Byte>, stride: nat, c: Cursor, written: nat, input: seq<Byte>, content: seq<Byte>, p: nat,
                   part: seq<Byte>, c': Cursor, written': nat, content': seq<Byte>)
    requires c.block < SIZE_MODULUS && |file| <= SSIZE_MAX
    requires Missed(file, stride, c, written, input, content, p) && written < |file|
    requires part == NextPart(input, c, written)
    requires c' == Advance(c, stride, |file|) && written' == written + |part|
    requires content' == WriteAt(content, c.pos, part)
    ensures part != [] && written' <= |file|
    ensures if |content'| > |file| then written' == |file| else Missed(file, stride, c', written', input, content', p)
  {
    var n := |Chunk(c, |file|)|;
    ChunkFits(file, stride, c, written, input, n, p);
    PartOrRest(input, c, written, n);
    if |part| == n {
      MissedNext(file, stride, c, written, input, content, p, part, c', written', content');
    }
  }

  /** A byte that stridecat61 never emits stays as it was, or the file grows too long. */
  lemma {:induction false} MissedStaysWrong(file: seq<Byte>, stride: nat, c: Cursor, written: nat, input: seq<Byte>,
                                            content: seq<Byte>, p: nat)
    requires c.block < SIZE_MODULUS && |file| <= SSIZE_MAX
    requires Missed(file, stride, c, written, input, content, p)
    ensures !RestoresTo(input, stride, c, written, content, file)
    decreases |file| - written
  {
    if written < |file| {
      var part := NextPart(input, c, written);
      var c', written', content' := Advance(c, stride, |file|), written + |part|, WriteAt(content, c.pos, part);
      BlockFits(c, stride, |file|, c');
      MissedTurn(file, stride, c, written, input, content, p, part, c', written', content');
      RestoredNext(input, stride, c, written, content, part, file, c', written', content');
      if |content'| > |file| {
        GrowsTooLong(input, stride, c', content', file);
      } else {
        MissedStaysWrong(file, stride, c', written', input, content', p);
      }
    }
  }

  /** The next n positions. */
  function Upwards(from: nat, n: nat): (s: seq<nat>)
    ensures |s| == n
  {
    Chunk(Cursor(from, n), from + n)
  }

  function PartSize(input: seq<Byte>, c: Cursor, written: nat): (n: nat)
    ensures written < |input| ==> n <= |input| - written
  {
    |NextPart(input, c, written)|
  }

  /** The positions that ostridecat61 writes to, in order. */
  function Touched(input: seq<Byte>, stride: nat, c: Cursor, written: nat): (s: seq<nat>)
    ensures |s| <= if written < |input| then |input| - written else 0
    decreases if written < |input| then |input| - written else 0
  {
    var n := PartSize(input, c, written);
    if written >= |input| || n == 0 then [] else
    Upwards(c.pos, n) + Touched(input, stride, Advance(c, stride, |input|), written + n)
  }

  /** A write elsewhere leaves the byte at p alone. */
  lemma WriteElsewhere(content: seq<Byte>, pos: nat, part: seq<Byte>, p: nat)
    requires part != [] && p < |content| && p !in Upwards(pos, |part|)
    ensures p < |WriteAt(content, pos, part)| && WriteAt(content, pos, part)[p] == content[p]
  {
    ByteWritten(content, pos, part, p);
    if p < pos + |part| {
      InChunkSeq(Cursor(pos, |part|), pos + |part|, p);
    }
  }

  lemma TouchedNext(input: seq<Byte>, stride: nat, c: Cursor, written: nat, part: seq<Byte>, p: nat, c': Cursor,
                    written': nat)
    requires written < |input| && part == NextPart(input, c, written) && part != []
    requires c' == Advance(c, stride, |input|) && written' == written + |part|
    requires p !in Touched(input, stride, c, written)
    ensures p !in Upwards(c.pos, |part|) && p !in Touched(input, stride, c', written')
  {
  }

  lemma {:induction false} Untouched(input: seq<Byte>, stride: nat, c: Cursor, written: nat, content: seq<Byte>, p: nat,
                                     goal: seq<Byte>)
    requires p < |content| && p !in Touched(input, stride, c, written)
    requires RestoresTo(input, stride, c, written, content, goal)
    ensures p < |goal| && goal[p] == content[p]
    decreases if written < |input| then |input| - written else 0
  {
    var part := NextPart(input, c, written);
    if written < |input| && part != [] {
      var c', written', content' := Advance(c, stride, |input|), written + |part|, WriteAt(content, c.pos, part);
      TouchedNext(input, stride, c, written, part, p, c', written');
      WriteElsewhere(content, c.pos, part, p);
      RestoredNext(input, stride, c, written, content, part, goal, c', written', content');
      Untouched(input, stride, c', written', content', p, goal);
    }
  }

  // Exactly when the round trip succeeds

  lemma MissingMember(s: seq<nat>, n: nat) returns (p: nat)
    requires |s| < n
    ensures p < n && p !in s
  {
    var all := Members(Upwards(0, n));
    forall q | 0 <= q < n
      ensures q in all
    {
      InChunkSeq(Cursor(0, n), n, q);
    }
    BelowSize(all, n);
    SetOfSeq(s);
    if all <= Members(s) {
      SubsetSize(all, Members(s));
      assert false;
    }
    p :| p in all && p !in Members(s);
  }

  /** The older file that has another byte at p. */
  function Other(file: seq<Byte>, p: nat): (content: seq<Byte>)
    requires p < |file|
    ensures Differs(file, content, p)
  {
    file[p := if file[p] == 0 then 1 else 0]
  }

  /** Output shorter than the file: there is a byte to which ostridecat61 does not write. */
  lemma ShortOutputFails(file: seq<Byte>, stride: nat, c: Cursor, input: seq<Byte>) returns (content: seq<Byte>)
    requires |input| < |file|
    ensures |content| == |file| && !RestoresTo(input, stride, c, 0, content, file)
  {
    var p := MissingMember(Touched(input, stride, c, 0), |file|);
    content := Other(file, p);
    if RestoresTo(input, stride, c, 0, content, file) {
      Untouched(input, stride, c, 0, content, p, file);
      assert false;
    }
  }

  /** Output as long as the file that has not all of it: the missing byte stays wrong. */
  lemma MissingByteFails(file: seq<Byte>, stride: nat, c: Cursor, input: seq<Byte>) returns (content: seq<Byte>)
    requires c.block < SIZE_MODULUS && |file| <= SSIZE_MAX
    requires input == StrideOut(file, stride, c, 0) && |input| == |file|
    requires !EachOnce(Emitted(|file|, stride, c, 0), |file|)
    ensures |content| == |file| && !RestoresTo(input, stride, c, 0, content, file)
  {
    var s := Emitted(|file|, stride, c, 0);
    if forall p :: 0 <= p < |file| ==> p in s {
      AllMeansOnce(s, |file|);
      assert false;
    }
    var p: nat :| p < |file| && p !in s;
    content := Other(file, p);
    assert input[0..] == input;
    MissedStaysWrong(file, stride, c, 0, input, content, p);
  }

  /** ostridecat61, fed with what stridecat61 emits, rebuilds the file over this older content. */
  predicate RoundTrips(file: seq<Byte>, stride: nat, blockSize: nat, content: seq<Byte>) {
    var c := Cursor(0, blockSize);
    RestoresTo(StrideOut(file, stride, c, 0), stride, c, 0, content, file + Behind(content, |file|))
  }

  /**
   * As long as stridecat61 emits no more bytes than the file has, the round trip succeeds over every older content if,
   * and only if, the blocks tile the file or it fits into one block.
   */
  lemma RoundTripExactly(file: seq<Byte>, stride: nat, blockSize: nat)
    requires 0 < blockSize < SIZE_MODULUS && stride < SIZE_MODULUS && |file| <= SSIZE_MAX
    requires |StrideOut(file, stride, Cursor(0, blockSize), 0)| <= |file|
    ensures (forall content :: RoundTrips(file, stride, blockSize, content))
            <==> Tiles(|file|, stride, blockSize) || |file| <= blockSize
  {
    var c := Cursor(0, blockSize);
    var input := StrideOut(file, stride, c, 0);
    if Tiles(|file|, stride, blockSize) || |file| <= blockSize {
      forall content
        ensures RoundTrips(file, stride, blockSize, content)
      {
        StrideRoundTrip(file, stride, blockSize, content);
      }
    } else {
      EmitsEachOnce(|file|, stride, blockSize);
      var content: seq<Byte>;
      if |input| < |file| {
        content := ShortOutputFails(file, stride, c, input);
      } else {
        content := MissingByteFails(file, stride, c, input);
      }
      assert file + Behind(content, |file|) == file;
      assert !RoundTrips(file, stride, blockSize, content);
    }
  }
}
