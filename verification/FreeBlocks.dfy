/** The free list of one chunk of the dynamic tensor allocator, as a value.

    A free list is read as a set of free byte offsets (`IsFree`).  The list surgery the
    allocator does (take from a block, merge with a neighbour, insert) is a function on
    sequences here; the class in Tallocr.dfy does the same work in place on an array and is
    proved to follow these functions. */
module FreeBlocks {
  import opened Arith

  const SIZE_MAX: nat := 0xFFFF_FFFF_FFFF_FFFF
  const MAX_FREE_BLOCKS: nat := 256
  const MAX_CHUNKS: nat := 16

  datatype Block = Block(offset: nat, size: nat) {
    function End(): nat { offset + size }
    predicate Has(x: nat) { offset <= x < offset + size }
  }

  /** One chunk: its free list, the largest end ever handed out, and how far it may grow. */
  datatype ChunkState = ChunkState(blocks: seq<Block>, maxSize: nat, extent: nat)

  /** `aligned_offset` with a NULL buffer: round up to a multiple of the alignment. */
  function AlignUp(size: nat, alignment: nat): (r: nat)
    requires alignment > 0
    ensures r >= size
  {
    size + (alignment - size % alignment) % alignment
  }

  lemma AlignUpIsLeastMultiple(size: nat, a: nat)
    requires a > 0
    ensures AlignUp(size, a) % a == 0 && size <= AlignUp(size, a) < size + a
    ensures size % a == 0 <==> AlignUp(size, a) == size
  {
    var r := size % a;
    assert size == (size / a) * a + r;
    if r == 0 {
      ModUnique(a, a, 1, 0);
    } else {
      ModUnique(a - r, a, 0, a - r);
      assert AlignUp(size, a) == (size / a + 1) * a;
      MulMod(size / a + 1, a);
    }
  }

  ghost predicate IsFree(bs: seq<Block>, x: nat) {
    exists i :: 0 <= i < |bs| && bs[i].Has(x)
  }

  /** Sorted by address, no empty block, and no two blocks that touch: fully merged. */
  ghost predicate Coalesced(bs: seq<Block>) {
    && (forall i :: 0 <= i < |bs| ==> bs[i].size > 0)
    && (forall i, j :: 0 <= i < j < |bs| ==> bs[i].End() < bs[j].offset)
  }

  ghost predicate Aligned(bs: seq<Block>, alignment: nat)
    requires alignment > 0
  {
    forall i :: 0 <= i < |bs| ==> bs[i].offset % alignment == 0
  }

  /** The invariant of a chunk: a merged, aligned free list inside the extent, with every
      offset from `maxSize` to the extent still free. */
  ghost predicate ValidChunk(c: ChunkState, alignment: nat)
    requires alignment > 0
  {
    && Coalesced(c.blocks)
    && Aligned(c.blocks, alignment)
    && (forall i :: 0 <= i < |c.blocks| ==> c.blocks[i].End() <= c.extent)
    && (forall x: nat :: c.maxSize <= x < c.extent ==> IsFree(c.blocks, x))
  }

  lemma BlockInside(c: ChunkState, i: nat, a: nat)
    requires a > 0 && ValidChunk(c, a) && i < |c.blocks|
    ensures c.blocks[i].End() <= c.extent
  {
  }

  // ---- the list surgery ----

  function RemoveAt(bs: seq<Block>, i: nat): seq<Block>
    requires i < |bs|
  {
    bs[..i] + bs[i + 1..]
  }

  function InsertPos(bs: seq<Block>, offset: nat): (p: nat)
    ensures p <= |bs|
    ensures forall i :: 0 <= i < p ==> bs[i].offset < offset
    ensures p < |bs| ==> bs[p].offset >= offset
  {
    if bs == [] || bs[0].offset >= offset then 0 else 1 + InsertPos(bs[1..], offset)
  }

  function Insert(bs: seq<Block>, b: Block): seq<Block> {
    var p := InsertPos(bs, b.offset);
    bs[..p] + [b] + bs[p..]
  }

  /** The list with the blocks from the insertion point on moved up one slot. */
  lemma InsertShape(was: seq<Block>, now: seq<Block>, b: Block, p: nat)
    requires p == InsertPos(was, b.offset) && |now| == |was| + 1 && now[p] == b
    requires forall k :: 0 <= k < p ==> now[k] == was[k]
    requires forall k :: p < k < |now| ==> now[k] == was[k - 1]
    ensures now == Insert(was, b)
  {
    hide InsertPos;
    assert now[..p] == was[..p];
    assert now[p + 1..] == was[p..];
  }

  /** Hand out the first `size` bytes of block `i`. */
  function Take(bs: seq<Block>, i: nat, size: nat): seq<Block>
    requires i < |bs| && size <= bs[i].size
  {
    if bs[i].size == size then RemoveAt(bs, i)
    else bs[i := Block(bs[i].offset + size, bs[i].size - size)]
  }

  /** Give back `[offset, offset + size)`: the scan of `ggml_dyn_tallocr_free_tensor` from
      block `i` on. */
  function Release(bs: seq<Block>, i: nat, offset: nat, size: nat): seq<Block>
    requires i <= |bs|
    decreases |bs| - i
  {
    if i == |bs| then
      Insert(bs, Block(offset, size))
    else if bs[i].End() == offset then
      if i + 1 < |bs| && offset + size == bs[i + 1].offset then
        RemoveAt(bs[i := Block(bs[i].offset, bs[i].size + size + bs[i + 1].size)], i + 1)
      else
        bs[i := Block(bs[i].offset, bs[i].size + size)]
    else if offset + size == bs[i].offset then
      if i > 0 && bs[i - 1].End() == offset then
        RemoveAt(bs[i - 1 := Block(bs[i - 1].offset, bs[i - 1].size + size + bs[i].size)], i)
      else
        bs[i := Block(offset, size + bs[i].size)]
    else
      Release(bs, i + 1, offset, size)
  }

  // ---- what the surgery means for the set of free offsets ----

  /** The branch for a block that ends where the range starts. */
  lemma ReleaseAfter(bs: seq<Block>, i: nat, offset: nat, size: nat)
    requires i < |bs| && bs[i].End() == offset
    ensures var m := Block(bs[i].offset, bs[i].size + size);
            Release(bs, i, offset, size) ==
            if i + 1 < |bs| && m.End() == bs[i + 1].offset
            then RemoveAt(bs[i := Block(m.offset, m.size + bs[i + 1].size)], i + 1) else bs[i := m]
  {
  }

  /** A free list that differs from `bs` by replacing blocks `lo..hi` with `mid` is free
      exactly where the kept blocks or `mid` are. */
  lemma SpliceFree(bs: seq<Block>, lo: nat, hi: nat, mid: seq<Block>, x: nat)
    requires lo <= hi <= |bs|
    ensures IsFree(bs[..lo] + mid + bs[hi..], x)
         <==> IsFree(bs[..lo], x) || IsFree(mid, x) || IsFree(bs[hi..], x)
    ensures IsFree(bs, x) <==> IsFree(bs[..lo], x) || IsFree(bs[lo..hi], x) || IsFree(bs[hi..], x)
  {
    FreeConcat(bs[..lo] + mid, bs[hi..], x);
    FreeConcat(bs[..lo], mid, x);
    assert bs == bs[..lo] + bs[lo..hi] + bs[hi..];
    FreeConcat(bs[..lo] + bs[lo..hi], bs[hi..], x);
    FreeConcat(bs[..lo], bs[lo..hi], x);
  }

  lemma FreeConcat(a: seq<Block>, b: seq<Block>, x: nat)
    ensures IsFree(a + b, x) <==> IsFree(a, x) || IsFree(b, x)
  {
    if IsFree(a, x) {
      var i :| 0 <= i < |a| && a[i].Has(x);
      assert (a + b)[i].Has(x);
    }
    if IsFree(b, x) {
      var i :| 0 <= i < |b| && b[i].Has(x);
      assert (a + b)[|a| + i].Has(x);
    }
  }

  /** Taking from block `i` removes exactly the bytes handed out and keeps the list merged. */
  lemma TakeFrees(bs: seq<Block>, i: nat, size: nat)
    requires Coalesced(bs) && i < |bs| && 0 < size <= bs[i].size
    ensures Coalesced(Take(bs, i, size))
    ensures forall x: nat :: IsFree(Take(bs, i, size), x)
                        <==> IsFree(bs, x) && !(bs[i].offset <= x < bs[i].offset + size)
    ensures forall x: nat :: bs[i].offset <= x < bs[i].offset + size ==> IsFree(bs, x)
  {
    var mid := if bs[i].size == size then [] else [Block(bs[i].offset + size, bs[i].size - size)];
    var r := Take(bs, i, size);
    assert r == bs[..i] + mid + bs[i + 1..];
    forall x: nat
      ensures IsFree(r, x) <==> IsFree(bs, x) && !(bs[i].offset <= x < bs[i].offset + size)
    {
      TakeFreesAt(bs, i, size, mid, x);
    }
    TakeCoalesced(bs, i, mid);
    forall x: nat | bs[i].offset <= x < bs[i].offset + size ensures IsFree(bs, x) {
      assert bs[i].Has(x);
    }
  }

  lemma TakeCoalesced(bs: seq<Block>, i: nat, mid: seq<Block>)
    requires Coalesced(bs) && i < |bs| && |mid| <= 1
    requires mid != [] ==> mid[0].size > 0 && bs[i].offset <= mid[0].offset && mid[0].End() == bs[i].End()
    ensures Coalesced(bs[..i] + mid + bs[i + 1..])
  {
    JoinCoalesced(bs[..i], mid);
    JoinCoalesced(bs[..i] + mid, bs[i + 1..]);
  }

  lemma JoinCoalesced(a: seq<Block>, b: seq<Block>)
    requires Coalesced(a) && Coalesced(b)
    requires a != [] && b != [] ==> a[|a| - 1].End() < b[0].offset
    ensures Coalesced(a + b)
  {
    forall i | 0 <= i < |a + b| ensures (a + b)[i].size > 0 {
      JoinSize(a, b, i);
    }
    forall i, j | 0 <= i < j < |a + b| ensures (a + b)[i].End() < (a + b)[j].offset {
      hide Coalesced;
      JoinApart(a, b, i, j);
    }
  }

  lemma JoinSize(a: seq<Block>, b: seq<Block>, i: nat)
    requires Coalesced(a) && Coalesced(b) && i < |a + b|
    ensures (a + b)[i].size > 0
  {
    if i < |a| {
      assert (a + b)[i] == a[i];
    } else {
      assert (a + b)[i] == b[i - |a|];
    }
  }

  lemma JoinApart(a: seq<Block>, b: seq<Block>, i: nat, j: nat)
    requires Coalesced(a) && Coalesced(b) && i < j < |a + b|
    requires a != [] && b != [] ==> a[|a| - 1].End() < b[0].offset
    ensures (a + b)[i].End() < (a + b)[j].offset
  {
    hide Coalesced;
    if j < |a| {
      ApartAt(a, i, j);
    } else if i >= |a| {
      ApartAt(b, i - |a|, j - |a|);
    } else {
      FarApart(a, b, i, j - |a|);
    }
  }

  lemma ApartAt(bs: seq<Block>, i: nat, j: nat)
    requires Coalesced(bs) && i < j < |bs|
    ensures bs[i].End() < bs[j].offset
  {
  }

  lemma FarApart(a: seq<Block>, b: seq<Block>, i: nat, j: nat)
    requires Coalesced(a) && Coalesced(b) && i < |a| && j < |b| && a[|a| - 1].End() < b[0].offset
    ensures a[i].End() < b[j].offset
  {
    assert i < |a| - 1 ==> a[i].End() < a[|a| - 1].offset;
    assert 0 < j ==> b[0].End() < b[j].offset;
  }

  lemma TakeFreesAt(bs: seq<Block>, i: nat, size: nat, mid: seq<Block>, x: nat)
    requires Coalesced(bs) && i < |bs| && 0 < size <= bs[i].size
    requires mid == if bs[i].size == size then [] else [Block(bs[i].offset + size, bs[i].size - size)]
    ensures IsFree(bs[..i] + mid + bs[i + 1..], x)
       <==> IsFree(bs, x) && !(bs[i].offset <= x < bs[i].offset + size)
  {
    SpliceFree(bs, i, i + 1, mid, x);
    assert bs[i..i + 1] == [bs[i]];
    assert IsFree([bs[i]], x) <==> [bs[i]][0].Has(x);
    assert IsFree(mid, x) <==> mid != [] && mid[0].Has(x);
    if IsFree(bs[..i], x) {
      var k :| 0 <= k < i && bs[..i][k].Has(x);
      assert bs[k].End() < bs[i].offset;
    }
    if IsFree(bs[i + 1..], x) {
      var k :| 0 <= k < |bs| - i - 1 && bs[i + 1..][k].Has(x);
      assert bs[i].End() < bs[i + 1 + k].offset;
    }
  }

  /** What a release is: replace one or two neighbours (or nothing) by one merged block. */
  ghost predicate IsMerge(bs: seq<Block>, r: seq<Block>, lo: nat, hi: nat, m: Block, offset: nat, size: nat) {
    && lo <= hi <= |bs|
    && r == bs[..lo] + [m] + bs[hi..]
    && (forall x: nat :: m.Has(x) <==> offset <= x < offset + size || IsFree(bs[lo..hi], x))
    && (lo > 0 ==> bs[lo - 1].End() < m.offset)
    && (hi < |bs| ==> m.End() < bs[hi].offset)
    && m.size > 0
  }

  lemma MergeFrees(bs: seq<Block>, r: seq<Block>, lo: nat, hi: nat, m: Block, offset: nat, size: nat)
    requires Coalesced(bs) && IsMerge(bs, r, lo, hi, m, offset, size)
    ensures Coalesced(r)
    ensures forall x: nat :: IsFree(r, x) <==> IsFree(bs, x) || offset <= x < offset + size
  {
    forall x: nat ensures IsFree(r, x) <==> IsFree(bs, x) || offset <= x < offset + size {
      SpliceFree(bs, lo, hi, [m], x);
      assert IsFree([m], x) <==> [m][0].Has(x);
    }
    MergeCoalesced(bs, r, lo, hi, m);
  }

  lemma MergeCoalesced(bs: seq<Block>, r: seq<Block>, lo: nat, hi: nat, m: Block)
    requires Coalesced(bs) && lo <= hi <= |bs| && r == bs[..lo] + [m] + bs[hi..] && m.size > 0
    requires (lo > 0 ==> bs[lo - 1].End() < m.offset) && (hi < |bs| ==> m.End() < bs[hi].offset)
    ensures Coalesced(r)
  {
    JoinCoalesced(bs[..lo], [m]);
    JoinCoalesced(bs[..lo] + [m], bs[hi..]);
  }

  /** Every block lies wholly before or wholly after the range. */
  ghost predicate Aside(bs: seq<Block>, offset: nat, size: nat) {
    forall k :: 0 <= k < |bs| ==> bs[k].End() <= offset || offset + size <= bs[k].offset
  }

  lemma NotFreeIsAside(bs: seq<Block>, offset: nat, size: nat)
    requires Coalesced(bs) && size > 0
    requires forall x: nat :: offset <= x < offset + size ==> !IsFree(bs, x)
    ensures Aside(bs, offset, size)
  {
    forall k | 0 <= k < |bs| ensures bs[k].End() <= offset || offset + size <= bs[k].offset {
      if bs[k].offset < offset + size && offset < bs[k].End() {
        var x := if bs[k].offset >= offset then bs[k].offset else offset;
        assert bs[k].Has(x);
        assert IsFree(bs, x);
      }
    }
  }

  /** Giving back a range that is not free frees exactly that range and leaves the list
      fully merged, whichever branch the scan takes. */
  lemma {:induction false} ReleaseFrees(bs: seq<Block>, i: nat, offset: nat, size: nat)
    requires Coalesced(bs) && i <= |bs| && size > 0 && Aside(bs, offset, size)
    requires forall k :: 0 <= k < i ==> bs[k].End() != offset && offset + size != bs[k].offset
    ensures Coalesced(Release(bs, i, offset, size))
    ensures forall x: nat :: IsFree(Release(bs, i, offset, size), x)
                        <==> IsFree(bs, x) || offset <= x < offset + size
    decreases |bs| - i
  {
    if i < |bs| && bs[i].End() != offset && offset + size != bs[i].offset {
      ReleaseFrees(bs, i + 1, offset, size);
    } else {
      var lo, hi, m := ReleaseIsMerge(bs, i, offset, size);
      MergeFrees(bs, Release(bs, i, offset, size), lo, hi, m, offset, size);
    }
  }

  lemma ReleaseIsMerge(bs: seq<Block>, i: nat, offset: nat, size: nat) returns (lo: nat, hi: nat, m: Block)
    requires Coalesced(bs) && i <= |bs| && size > 0 && Aside(bs, offset, size)
    requires forall k :: 0 <= k < i ==> bs[k].End() != offset && offset + size != bs[k].offset
    requires i == |bs| || bs[i].End() == offset || offset + size == bs[i].offset
    ensures IsMerge(bs, Release(bs, i, offset, size), lo, hi, m, offset, size)
  {
    if i == |bs| {
      lo, hi, m := MergeNone(bs, offset, size);
    } else if bs[i].End() != offset {
      lo, hi, m := MergeRight(bs, i, offset, size);
    } else if i + 1 < |bs| && offset + size == bs[i + 1].offset {
      lo, hi, m := MergeBoth(bs, i, offset, size);
    } else {
      lo, hi, m := MergeLeft(bs, i, offset, size);
    }
  }

  lemma MergeNone(bs: seq<Block>, offset: nat, size: nat) returns (lo: nat, hi: nat, m: Block)
    requires Coalesced(bs) && size > 0 && Aside(bs, offset, size)
    requires forall k :: 0 <= k < |bs| ==> bs[k].End() != offset && offset + size != bs[k].offset
    ensures IsMerge(bs, Release(bs, |bs|, offset, size), lo, hi, m, offset, size)
  {
    lo := InsertPos(bs, offset);
    hi, m := lo, Block(offset, size);
    NothingIn(bs, lo);
  }

  lemma MergeRight(bs: seq<Block>, i: nat, offset: nat, size: nat) returns (lo: nat, hi: nat, m: Block)
    requires Coalesced(bs) && i < |bs| && size > 0 && Aside(bs, offset, size)
    requires i > 0 ==> bs[i - 1].End() != offset
    requires bs[i].End() != offset && offset + size == bs[i].offset
    ensures IsMerge(bs, Release(bs, i, offset, size), lo, hi, m, offset, size)
  {
    lo, hi, m := i, i + 1, Block(offset, size + bs[i].size);
    MergeRightShape(bs, i, offset, size);
    forall x: nat ensures m.Has(x) <==> offset <= x < offset + size || IsFree(bs[lo..hi], x) {
      OneBlock(bs, i);
      assert bs[i].Has(x) <==> offset + size <= x < m.End();
    }
  }

  lemma MergeRightShape(bs: seq<Block>, i: nat, offset: nat, size: nat)
    requires Coalesced(bs) && i < |bs| && size > 0 && Aside(bs, offset, size)
    requires i > 0 ==> bs[i - 1].End() != offset
    requires bs[i].End() != offset && offset + size == bs[i].offset
    ensures Release(bs, i, offset, size) == bs[..i] + [Block(offset, size + bs[i].size)] + bs[i + 1..]
    ensures i > 0 ==> bs[i - 1].End() < offset
  {
    if i > 0 {
      assert bs[i - 1].End() < bs[i].offset;
    }
  }

  lemma MergeBoth(bs: seq<Block>, i: nat, offset: nat, size: nat) returns (lo: nat, hi: nat, m: Block)
    requires Coalesced(bs) && i + 1 < |bs| && size > 0 && Aside(bs, offset, size)
    requires bs[i].End() == offset && offset + size == bs[i + 1].offset
    ensures IsMerge(bs, Release(bs, i, offset, size), lo, hi, m, offset, size)
  {
    lo, hi, m := i, i + 2, Block(bs[i].offset, bs[i].size + size + bs[i + 1].size);
    MergeBothShape(bs, i, offset, size);
    forall x: nat ensures m.Has(x) <==> offset <= x < offset + size || IsFree(bs[lo..hi], x) {
      hide IsFree;
      TwoBlocks(bs, i);
    }
  }

  lemma MergeBothShape(bs: seq<Block>, i: nat, offset: nat, size: nat)
    requires i + 1 < |bs| && bs[i].End() == offset && offset + size == bs[i + 1].offset
    ensures Release(bs, i, offset, size) ==
            bs[..i] + [Block(bs[i].offset, bs[i].size + size + bs[i + 1].size)] + bs[i + 2..]
  {
    var m := Block(bs[i].offset, bs[i].size + size + bs[i + 1].size);
    assert Release(bs, i, offset, size) == RemoveAt(bs[i := m], i + 1);
  }

  lemma MergeLeft(bs: seq<Block>, i: nat, offset: nat, size: nat) returns (lo: nat, hi: nat, m: Block)
    requires Coalesced(bs) && i < |bs| && size > 0 && Aside(bs, offset, size)
    requires bs[i].End() == offset && !(i + 1 < |bs| && offset + size == bs[i + 1].offset)
    ensures IsMerge(bs, Release(bs, i, offset, size), lo, hi, m, offset, size)
  {
    lo, hi, m := i, i + 1, Block(bs[i].offset, bs[i].size + size);
    MergeLeftShape(bs, i, offset, size);
    forall x: nat ensures m.Has(x) <==> offset <= x < offset + size || IsFree(bs[lo..hi], x) {
      hide IsFree;
      OneBlock(bs, i);
    }
  }

  lemma MergeLeftShape(bs: seq<Block>, i: nat, offset: nat, size: nat)
    requires Coalesced(bs) && i < |bs| && size > 0 && Aside(bs, offset, size)
    requires bs[i].End() == offset && !(i + 1 < |bs| && offset + size == bs[i + 1].offset)
    ensures Release(bs, i, offset, size) == bs[..i] + [Block(bs[i].offset, bs[i].size + size)] + bs[i + 1..]
    ensures i + 1 < |bs| ==> offset + size < bs[i + 1].offset
  {
    var m := Block(bs[i].offset, bs[i].size + size);
    assert Release(bs, i, offset, size) == bs[i := m];
    if i + 1 < |bs| { assert bs[i].End() < bs[i + 1].offset; }
  }

  lemma NothingIn(bs: seq<Block>, p: nat)
    requires p <= |bs|
    ensures forall x: nat :: !IsFree(bs[p..p], x)
  {
  }

  lemma OneBlock(bs: seq<Block>, i: nat)
    requires i < |bs|
    ensures forall x: nat :: IsFree(bs[i..i + 1], x) <==> bs[i].Has(x)
  {
    forall x: nat | bs[i].Has(x) ensures IsFree(bs[i..i + 1], x) {
      assert bs[i..i + 1][0].Has(x);
    }
  }

  lemma TwoBlocks(bs: seq<Block>, i: nat)
    requires i + 1 < |bs|
    ensures forall x: nat :: IsFree(bs[i..i + 2], x) <==> bs[i].Has(x) || bs[i + 1].Has(x)
  {
    forall x: nat | bs[i].Has(x) || bs[i + 1].Has(x) ensures IsFree(bs[i..i + 2], x) {
      assert bs[i..i + 2][0].Has(x) || bs[i..i + 2][1].Has(x);
    }
  }

  /** Every block of a released list starts where an old block did or at the released range. */
  lemma {:induction false} ReleaseOffsets(bs: seq<Block>, i: nat, offset: nat, size: nat, a: nat)
    requires i <= |bs| && a > 0 && Aligned(bs, a) && offset % a == 0
    ensures Aligned(Release(bs, i, offset, size), a)
    decreases |bs| - i
  {
    if i < |bs| && bs[i].End() != offset && offset + size != bs[i].offset {
      ReleaseOffsets(bs, i + 1, offset, size, a);
    }
  }

  // ---- whole chunks ----

  function TakeFrom(c: ChunkState, i: nat, size: nat): ChunkState
    requires i < |c.blocks| && size <= c.blocks[i].size
  {
    ChunkState(Take(c.blocks, i, size), Max(c.maxSize, c.blocks[i].offset + size), c.extent)
  }

  function GiveBack(c: ChunkState, offset: nat, size: nat): ChunkState {
    c.(blocks := Release(c.blocks, 0, offset, size))
  }

  lemma TakeKeepsValid(c: ChunkState, i: nat, size: nat, a: nat)
    requires a > 0 && ValidChunk(c, a) && i < |c.blocks| && 0 < size <= c.blocks[i].size && size % a == 0
    ensures ValidChunk(TakeFrom(c, i, size), a)
  {
    var b := c.blocks[i];
    TakeFrees(c.blocks, i, size);
    MultiplesAdd(b.offset, size, a);
    var c' := TakeFrom(c, i, size);
    forall x: nat | c'.maxSize <= x < c'.extent ensures IsFree(c'.blocks, x) {
      assert IsFree(c.blocks, x);
    }
    forall j | 0 <= j < |c'.blocks| ensures c'.blocks[j].End() <= c.extent && c'.blocks[j].offset % a == 0 {
      TakeBlocks(c.blocks, i, size, j);
    }
  }

  lemma TakeBlocks(bs: seq<Block>, i: nat, size: nat, j: nat)
    requires i < |bs| && size <= bs[i].size && j < |Take(bs, i, size)|
    ensures Take(bs, i, size)[j] in bs || Take(bs, i, size)[j] == Block(bs[i].offset + size, bs[i].size - size)
  {
  }

  lemma GiveBackKeepsValid(c: ChunkState, offset: nat, size: nat, a: nat)
    requires a > 0 && ValidChunk(c, a) && size > 0 && offset % a == 0
    requires offset + size <= c.extent
    requires forall x: nat :: offset <= x < offset + size ==> !IsFree(c.blocks, x)
    ensures ValidChunk(GiveBack(c, offset, size), a)
    ensures forall x: nat :: IsFree(GiveBack(c, offset, size).blocks, x)
                        <==> IsFree(c.blocks, x) || offset <= x < offset + size
  {
    NotFreeIsAside(c.blocks, offset, size);
    ReleaseFrees(c.blocks, 0, offset, size);
    ReleaseOffsets(c.blocks, 0, offset, size, a);
    var r := Release(c.blocks, 0, offset, size);
    forall j | 0 <= j < |r| ensures r[j].End() <= c.extent {
      var x := r[j].End() - 1;
      assert r[j].Has(x);
      assert IsFree(r, x);
      FreeInside(c, x, a);
    }
  }

  lemma FreeInside(c: ChunkState, x: nat, a: nat)
    requires a > 0 && ValidChunk(c, a)
    ensures IsFree(c.blocks, x) ==> x < c.extent
  {
  }
}
