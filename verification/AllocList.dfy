/** m61's list of live allocations: doubly linked, entered at its newest block, with running statistics. */
module AllocList {
  const SIZE_MAX: nat := 0xFFFF_FFFF_FFFF_FFFF
  const METADATA: nat := 56    // sizeof(metadata)
  const BACKPACK: nat := 8     // sizeof(backpack)

  /** The value of a 64-bit counter. */
  function Wrap(x: int): nat {
    x % 0x1_0000_0000_0000_0000
  }

  lemma WrapAdds(a: int, b: int)
    ensures Wrap(Wrap(a) + b) == Wrap(a + b)
    ensures Wrap(Wrap(a) - b) == Wrap(a - b)
  {
  }

  /** The metadata in front of every allocation. */
  class Block {
    var prv: Block?
    var next: Block?
    const sz: nat
    var previouslyFreed: bool

    constructor (sz: nat)
      ensures this.sz == sz && prv == null && next == null && !previouslyFreed
    {
      prv, next, previouslyFreed := null, null, false;
      this.sz := sz;
    }
  }

  function SizeOf(blocks: seq<Block>): nat {
    if blocks == [] then 0 else blocks[0].sz + SizeOf(blocks[1..])
  }

  function Without(blocks: seq<Block>, i: nat): seq<Block>
    requires i < |blocks|
  {
    blocks[..i] + blocks[i + 1..]
  }

  function Reversed(blocks: seq<Block>): seq<Block> {
    if blocks == [] then [] else Reversed(blocks[1..]) + [blocks[0]]
  }

  lemma {:induction false} SizeWithout(blocks: seq<Block>, i: nat)
    requires i < |blocks|
    ensures SizeOf(blocks) == blocks[i].sz + SizeOf(Without(blocks, i))
  {
    if i == 0 {
      assert Without(blocks, 0) == blocks[1..];
    } else {
      assert Without(blocks, i)[1..] == Without(blocks[1..], i - 1);
      SizeWithout(blocks[1..], i - 1);
    }
  }

  lemma {:induction false} SizeOfMore(blocks: seq<Block>, b: Block)
    ensures SizeOf(blocks + [b]) == SizeOf(blocks) + b.sz
  {
    SizeWithout(blocks + [b], |blocks|);
    assert Without(blocks + [b], |blocks|) == blocks;
  }

  /** The reversed list visits the same blocks, each at the mirrored place. */
  lemma {:induction false} ReversedAt(blocks: seq<Block>, i: nat)
    requires i < |blocks|
    ensures |Reversed(blocks)| == |blocks| && Reversed(blocks)[|blocks| - 1 - i] == blocks[i]
  {
    ReversedLength(blocks[1..]);
    if i > 0 {
      ReversedAt(blocks[1..], i - 1);
    }
  }

  lemma {:induction false} ReversedLength(blocks: seq<Block>)
    ensures |Reversed(blocks)| == |blocks|
  {
    if blocks != [] {
      ReversedLength(blocks[1..]);
    }
  }

  lemma {:induction false} ReversedMore(blocks: seq<Block>, b: Block)
    ensures Reversed(blocks + [b]) == [b] + Reversed(blocks)
  {
    if blocks == [] {
      assert Reversed([b]) == Reversed([]) + [b];
    } else {
      assert (blocks + [b])[1..] == blocks[1..] + [b];
      ReversedMore(blocks[1..], b);
    }
  }

  class Allocator {
    var lastAlloc: Block?
    var activeCount: nat
    var activeSize: nat
    var totalCount: nat
    var totalSize: nat
    var failCount: nat
    var failSize: nat

    /** The live blocks, oldest first. */
    ghost var live: seq<Block>

    /** What has been freed so far. */
    ghost var freedCount: nat
    ghost var freedSize: nat

    /** A live block is linked to its neighbours in age. */
    ghost predicate Linked(i: nat)
      requires i < |live|
      reads this`live, live
    {
      && live[i].prv == (if i == 0 then null else live[i - 1])
      && live[i].next == (if i + 1 == |live| then null else live[i + 1])
      && !live[i].previouslyFreed
    }

    /** The chain from lastAlloc runs through exactly the live blocks, each of them once. */
    ghost predicate Chained()
      reads this`live, this`lastAlloc, live
    {
      && (forall i, j :: 0 <= i < j < |live| ==> live[i] != live[j])
      && (forall i :: 0 <= i < |live| ==> Linked(i))
      && lastAlloc == (if live == [] then null else live[|live| - 1])
    }

    /** The active counters describe the list, and the total ones the list and all that has left it. */
    ghost predicate Counted()
      reads this`live, this`activeCount, this`activeSize, this`totalCount, this`totalSize,
            this`freedCount, this`freedSize
    {
      && activeCount == Wrap(|live|) && activeSize == Wrap(SizeOf(live))
      && totalCount == Wrap(|live| + freedCount) && totalSize == Wrap(SizeOf(live) + freedSize)
    }

    ghost predicate Valid()
      reads this, live
    {
      Chained() && Counted()
    }

    constructor ()
      ensures Valid() && live == [] && freedCount == 0 && freedSize == 0 && failCount == 0 && failSize == 0
    {
      lastAlloc, live, freedCount, freedSize := null, [], 0, 0;
      activeCount, activeSize, totalCount, totalSize, failCount, failSize := 0, 0, 0, 0, 0, 0;
    }

    method AllocationFailedWithSize(sz: nat)
      modifies this`failCount, this`failSize
      ensures failCount == Wrap(old(failCount) + 1) && failSize == Wrap(old(failSize) + sz)
    {
      failCount := Wrap(failCount + 1);
      failSize := Wrap(failSize + sz);
    }

    /** The statistics of one more block next to n blocks that hold `size` bytes. */
    method CountAllocation(sz: nat, ghost n: nat, ghost size: nat, ghost gone: nat, ghost goneSize: nat)
      requires activeCount == Wrap(n) && activeSize == Wrap(size)
      requires totalCount == Wrap(n + gone) && totalSize == Wrap(size + goneSize)
      modifies this`activeCount, this`activeSize, this`totalCount, this`totalSize
      ensures totalCount == Wrap(old(totalCount) + 1) && totalSize == Wrap(old(totalSize) + sz)
      ensures activeCount == Wrap(n + 1) && activeSize == Wrap(size + sz)
      ensures totalCount == Wrap(n + 1 + gone) && totalSize == Wrap(size + sz + goneSize)
    {
      totalCount := Wrap(totalCount + 1);
      activeCount := Wrap(activeCount + 1);
      totalSize := Wrap(totalSize + sz);
      activeSize := Wrap(activeSize + sz);
      WrapAdds(n, 1);
      WrapAdds(size, sz);
      WrapAdds(n + gone, 1);
      WrapAdds(size + goneSize, sz);
    }

    /** `available` says whether the underlying malloc finds room. */
    method Malloc(sz: nat, available: bool) returns (b: Block?)
      requires Valid() && sz <= SIZE_MAX
      modifies this, live
      ensures Valid()
      ensures b != null <==> available && sz <= SIZE_MAX - METADATA - BACKPACK
      ensures b != null ==>
        && fresh(b) && b.sz == sz && live == old(live) + [b]
        && totalCount == Wrap(old(totalCount) + 1) && totalSize == Wrap(old(totalSize) + sz)
        && freedCount == old(freedCount) && freedSize == old(freedSize)
        && failCount == old(failCount) && failSize == old(failSize)
      ensures b == null ==>
        && live == old(live) && freedCount == old(freedCount) && freedSize == old(freedSize)
        && totalCount == old(totalCount) && totalSize == old(totalSize)
        && failCount == Wrap(old(failCount) + 1) && failSize == Wrap(old(failSize) + sz)
    {
      if sz > SIZE_MAX - METADATA - BACKPACK {
        AllocationFailedWithSize(sz);
        return null;
      }
      if !available {
        AllocationFailedWithSize(sz);
        return null;
      }
      var meta := new Block(sz);
      SizeOfMore(live, meta);
      CountAllocation(sz, |live|, SizeOf(live), freedCount, freedSize);
      Append(meta);
      b := meta;
    }

    /** The block joins the list as its newest one. */
    method Append(meta: Block)
      requires Chained() && meta !in live
      requires meta.prv == null && meta.next == null && !meta.previouslyFreed
      modifies this`lastAlloc, this`live, live, meta
      ensures Chained() && live == old(live) + [meta]
    {
      if lastAlloc != null {
        lastAlloc.next := meta;
        meta.prv := lastAlloc;
      }
      lastAlloc := meta;
      live := live + [meta];
      forall i: nat | i < |live| ensures Linked(i) {
        assert i < |old(live)| ==> old(Linked(i));
      }
    }

    /** The block leaves the list, wherever it stands. */
    method Unlink(b: Block, ghost i: nat)
      requires Chained() && i < |live| && live[i] == b
      modifies this`lastAlloc, this`live, live
      ensures Chained() && live == Without(old(live), i) && b.previouslyFreed
    {
      assert Linked(i);
      assert i > 0 ==> Linked(i - 1);
      b.previouslyFreed := true;
      var prv, next := b.prv, b.next;
      if next == null {
        lastAlloc := prv;
      }
      if prv != null {
        assert prv.next == b;   // the check for an invalid free stays silent
        prv.next := next;
        if next != null {
          next.prv := prv;
        } else {
          lastAlloc := prv;
        }
      } else {
        if next != null {
          next.prv := prv;
        } else {
          lastAlloc := null;
        }
      }
      live := Without(live, i);
      forall j: nat | j < |live| ensures Linked(j) {
        assert old(Linked(if j < i then j else j + 1));
      }
    }

    /** Freeing the null pointer does nothing; `i` is the place of a live block. */
    method Free(b: Block?, ghost i: nat)
      requires Valid() && (b != null ==> i < |live| && live[i] == b)
      modifies this, live
      ensures Valid()
      ensures live == if b == null then old(live) else Without(old(live), i)
      ensures b != null ==>
        && b.previouslyFreed
        && freedCount == old(freedCount) + 1 && freedSize == old(freedSize) + b.sz
      ensures totalCount == old(totalCount) && totalSize == old(totalSize)
      ensures failCount == old(failCount) && failSize == old(failSize)
    {
      if b == null {
        return;
      }
      SizeWithout(live, i);
      WrapAdds(|live|, 1);
      WrapAdds(SizeOf(live), b.sz);
      activeCount := Wrap(activeCount - 1);
      activeSize := Wrap(activeSize - b.sz);
      freedCount, freedSize := freedCount + 1, freedSize + b.sz;
      Unlink(b, i);
    }

    /** The lines of the leak report, from a block backwards through the list. */
    method LeakTraverse(ptr: Block, ghost i: nat) returns (report: seq<Block>)
      requires Valid() && i < |live| && live[i] == ptr
      ensures report == Reversed(live[..i + 1])
      decreases i
    {
      assert Linked(i);
      report := [ptr];
      assert live[..i + 1] == live[..i] + [live[i]];
      ReversedMore(live[..i], live[i]);
      if ptr.prv != null {
        var rest := LeakTraverse(ptr.prv, i - 1);
        report := report + rest;
      } else {
        assert live[..i] == [];
      }
    }

    /** Every live block is reported once, the newest first. */
    method PrintLeakReport() returns (report: seq<Block>)
      requires Valid()
      ensures report == Reversed(live)
    {
      report := [];
      if lastAlloc != null {
        report := LeakTraverse(lastAlloc, |live| - 1);
        assert live[..|live|] == live;
      }
    }
  }
}
