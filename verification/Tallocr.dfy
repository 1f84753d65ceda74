/** The dynamic tensor allocator itself: free-block arrays shifted in place, chunk by chunk. */
module Tallocr {
  import opened Arith
  import opened FreeBlocks
  import opened AllocRuns

  class TallocrChunk {
    // one slot more than the source's array: removal copies the slot after the last live one
    const freeBlocks: array<Block>
    var nFreeBlocks: nat
    var maxSize: nat
    ghost const extent: nat

    ghost predicate Valid()
      reads this
    {
      freeBlocks.Length == MAX_FREE_BLOCKS + 1 && nFreeBlocks <= MAX_FREE_BLOCKS
    }

    ghost function Blocks(): seq<Block>
      reads this, freeBlocks
      requires Valid()
    {
      freeBlocks[..nFreeBlocks]
    }

    ghost function State(): ChunkState
      reads this, freeBlocks
      requires Valid()
    {
      ChunkState(Blocks(), maxSize, extent)
    }

    constructor (size: nat)
      ensures Valid() && fresh(freeBlocks)
      ensures State() == ChunkState([Block(0, size)], 0, size)
    {
      freeBlocks := new Block[MAX_FREE_BLOCKS + 1](_ => Block(0, 0));
      nFreeBlocks := 1;
      maxSize := 0;
      extent := size;
      new;
      freeBlocks[0] := Block(0, size);
    }

    method FindInsertPos(offset: nat) returns (insertPos: nat)
      requires Valid()
      ensures insertPos == InsertPos(Blocks(), offset)
    {
      insertPos := 0;
      while insertPos < nFreeBlocks && freeBlocks[insertPos].offset < offset
        invariant insertPos <= nFreeBlocks
        invariant insertPos <= InsertPos(Blocks(), offset)
      {
        InsertPosPast(Blocks(), offset, insertPos);
        insertPos := insertPos + 1;
      }
      InsertPosStop(Blocks(), offset, insertPos);
    }

    method InsertBlock(offset: nat, size: nat) returns (ok: bool)
      requires Valid()
      modifies this`nFreeBlocks, freeBlocks
      ensures Valid()
      ensures ok <==> old(nFreeBlocks) < MAX_FREE_BLOCKS
      ensures Blocks() == if ok then Insert(old(Blocks()), Block(offset, size)) else old(Blocks())
    {
      ghost var was := Blocks();
      if nFreeBlocks >= MAX_FREE_BLOCKS {
        return false;
      }
      hide Insert, InsertPos;
      var insertPos := FindInsertPos(offset);
      var i := nFreeBlocks;
      while i > insertPos
        invariant insertPos <= i <= nFreeBlocks && nFreeBlocks == |was|
        invariant forall k :: 0 <= k < i ==> freeBlocks[k] == was[k]
        invariant forall k :: i < k <= nFreeBlocks ==> freeBlocks[k] == was[k - 1]
      {
        freeBlocks[i] := freeBlocks[i - 1];
        i := i - 1;
      }
      freeBlocks[insertPos] := Block(offset, size);
      nFreeBlocks := nFreeBlocks + 1;
      ghost var now := Blocks();
      assert forall k :: 0 <= k < |now| ==> now[k] == freeBlocks[k];
      InsertShape(was, now, Block(offset, size), insertPos);
      return true;
    }

    method RemoveBlock(idx: nat)
      requires Valid() && idx < nFreeBlocks
      modifies this`nFreeBlocks, freeBlocks
      ensures Valid() && Blocks() == RemoveAt(old(Blocks()), idx)
      ensures nFreeBlocks == old(nFreeBlocks) - 1
    {
      ghost var was := Blocks();
      var i := idx;
      while i < nFreeBlocks
        invariant idx <= i <= nFreeBlocks && nFreeBlocks == |was|
        invariant freeBlocks[..idx] == was[..idx]
        invariant forall k :: idx <= k < i && k + 1 < nFreeBlocks ==> freeBlocks[k] == was[k + 1]
        invariant forall k :: i <= k < nFreeBlocks ==> freeBlocks[k] == was[k]
      {
        freeBlocks[i] := freeBlocks[i + 1];
        i := i + 1;
      }
      nFreeBlocks := nFreeBlocks - 1;
    }

    /** Hand out the first `size` bytes of block `idx`. */
    method TakeBlock(idx: nat, size: nat)
      requires Valid() && idx < nFreeBlocks && size <= freeBlocks[idx].size
      modifies this, freeBlocks
      ensures Valid() && State() == TakeFrom(old(State()), idx, size)
    {
      var block := freeBlocks[idx];
      ghost var was := Blocks();
      freeBlocks[idx] := Block(block.offset + size, block.size - size);
      assert Blocks() == was[idx := Block(block.offset + size, block.size - size)];
      if freeBlocks[idx].size == 0 {
        RemoveBlock(idx);
        assert Blocks() == RemoveAt(was, idx);
      }
      maxSize := Max(maxSize, block.offset + size);
    }

    /** The freed range starts where block `i` ends. */
    method MergeAfter(i: nat, offset: nat, size: nat)
      requires Valid() && i < nFreeBlocks && freeBlocks[i].End() == offset
      modifies this`nFreeBlocks, freeBlocks
      ensures Valid() && Blocks() == Release(old(Blocks()), i, offset, size)
      ensures nFreeBlocks <= old(nFreeBlocks)
    {
      ghost var was := Blocks();
      ghost var goal := Release(was, i, offset, size);
      ReleaseAfter(was, i, offset, size);
      hide Release, RemoveAt;
      var merged := Block(freeBlocks[i].offset, freeBlocks[i].size + size);
      freeBlocks[i] := merged;
      assert Blocks() == was[i := merged];
      if i < nFreeBlocks - 1 {
        var next := freeBlocks[i + 1];
        assert next == was[i + 1];
        if merged.End() == next.offset {
          ghost var both := was[i := Block(merged.offset, merged.size + next.size)];
          assert goal == RemoveAt(both, i + 1);
          freeBlocks[i] := Block(merged.offset, merged.size + next.size);
          assert Blocks() == both;
          RemoveBlock(i + 1);
        }
      }
    }

    /** The freed range ends where block `i` starts. */
    method MergeBefore(i: nat, offset: nat, size: nat)
      requires Valid() && i < nFreeBlocks && freeBlocks[i].End() != offset
      requires offset + size == freeBlocks[i].offset
      modifies this`nFreeBlocks, freeBlocks
      ensures Valid() && Blocks() == Release(old(Blocks()), i, offset, size)
      ensures nFreeBlocks <= old(nFreeBlocks)
    {
      ghost var was := Blocks();
      var merged := Block(offset, size + freeBlocks[i].size);
      freeBlocks[i] := merged;
      assert Blocks() == was[i := merged];
      if i > 0 {
        var prev := freeBlocks[i - 1];
        if prev.End() == merged.offset {
          freeBlocks[i - 1] := Block(prev.offset, prev.size + merged.size);
          RemoveBlock(i);
          assert Blocks() == RemoveAt(was[i - 1 := Block(prev.offset, prev.size + merged.size)], i);
        }
      }
    }

    /** The scan of the free: merge with a neighbour, or insert a block of its own.  Aborts,
        changing nothing, only when the free list is out of slots. */
    method FreeRange(offset: nat, size: nat) returns (ok: bool)
      requires Valid()
      modifies this`nFreeBlocks, freeBlocks
      ensures Valid()
      ensures ok <==> |GiveBack(old(State()), offset, size).blocks| <= MAX_FREE_BLOCKS
      ensures !ok ==> nFreeBlocks == MAX_FREE_BLOCKS
      ensures State() == if ok then GiveBack(old(State()), offset, size) else old(State())
    {
      ghost var was := Blocks();
      var i := 0;
      while i < nFreeBlocks
        invariant i <= nFreeBlocks && nFreeBlocks == old(nFreeBlocks) && Blocks() == was
        invariant Release(was, 0, offset, size) == Release(was, i, offset, size)
      {
        var block := freeBlocks[i];
        if block.End() == offset {
          MergeAfter(i, offset, size);
          return true;
        }
        if offset + size == block.offset {
          MergeBefore(i, offset, size);
          return true;
        }
        i := i + 1;
      }
      ok := InsertBlock(offset, size);
    }
  }

  const INT64_MIN: int := -0x8000_0000_0000_0000

  class DynTallocr {
    const alignment: nat
    const maxChunkSize: nat
    var chunks: seq<TallocrChunk>
    ghost var st: seq<ChunkState>
    ghost var Repr: set<object>

    ghost predicate Valid()
      reads this, Repr
    {
      && this in Repr && alignment > 0 && maxChunkSize <= SIZE_MAX / 2
      && |st| == |chunks|
      && (forall c :: 0 <= c < |chunks| ==>
            && chunks[c] in Repr && chunks[c].freeBlocks in Repr
            && chunks[c].Valid() && chunks[c].State() == st[c])
      && (forall c, d :: 0 <= c < d < |chunks| ==>
            chunks[c] != chunks[d] && chunks[c].freeBlocks != chunks[d].freeBlocks)
      && ValidChunks(st, alignment)
    }

    constructor (alignment: nat, maxBufferSize: nat)
      requires alignment > 0
      ensures Valid() && fresh(Repr) && st == []
      ensures this.alignment == alignment
    {
      this.alignment := alignment;
      maxChunkSize := if maxBufferSize <= SIZE_MAX / 2 then maxBufferSize else SIZE_MAX / 2;
      chunks := [];
      st := [];
      Repr := {this};
    }

    method Reset()
      requires Valid()
      modifies this
      ensures Valid() && Repr == old(Repr) && st == []
    {
      chunks := [];
      st := [];
    }

    /** Best fit among the non-last blocks: the best size is forgotten at every new chunk, so
        a later chunk with any fitting block overrides an earlier one. */
    method FindBestFit(size: nat) returns (found: bool, c: nat, i: nat)
      requires Valid()
      ensures found <==> exists d: nat, j: nat :: Fits(st, size, d, j)
      ensures found ==> Tightest(st, size, c, i) && forall d: nat, j: nat :: Fits(st, size, d, j) ==> d <= c
    {
      found, c, i := false, 0, 0;
      var d := 0;
      while d < |chunks|
        invariant d <= |chunks|
        invariant !found ==> forall e: nat, j: nat :: Fits(st, size, e, j) ==> e >= d
        invariant found ==> c < d && Tightest(st, size, c, i)
        invariant found ==> forall e: nat, j: nat :: Fits(st, size, e, j) ==> e <= c || e >= d
      {
        var fits, j := FindInChunk(d, size);
        if fits {
          found, c, i := true, d, j;
        }
        d := d + 1;
      }
    }

    method FindInChunk(c: nat, size: nat) returns (fits: bool, i: nat)
      requires Valid() && c < |chunks|
      ensures fits <==> exists j: nat :: Fits(st, size, c, j)
      ensures fits ==> Tightest(st, size, c, i)
    {
      var chunk := chunks[c];
      fits, i := false, 0;
      var bestFitSize := SIZE_MAX;
      var j := 0;
      while j < chunk.nFreeBlocks - 1
        invariant 0 <= j && (j < chunk.nFreeBlocks || j == 0)
        invariant !fits ==> bestFitSize == SIZE_MAX && forall k: nat :: k < j ==> !Fits(st, size, c, k)
        invariant fits ==> i < j && Fits(st, size, c, i) && bestFitSize == st[c].blocks[i].size
        invariant fits ==> forall k: nat :: k < j && Fits(st, size, c, k) ==>
          bestFitSize < st[c].blocks[k].size || (bestFitSize == st[c].blocks[k].size && k <= i)
      {
        var block := chunk.freeBlocks[j];
        assert block == st[c].blocks[j] && block.End() <= st[c].extent;
        if block.size >= size && block.size <= bestFitSize {
          fits, i, bestFitSize := true, j, block.size;
        }
        j := j + 1;
      }
    }

    /** Otherwise the last block of some chunk, judged by how much of the memory already
        reserved it reuses. */
    method FindLastBlock(size: nat) returns (found: bool, c: nat)
      requires Valid() && size <= SIZE_MAX / 2
      ensures found <==> exists d: nat :: FitsLast(st, size, d)
      ensures found ==> BestLast(st, size, c)
    {
      hide BestBelow, BestLast, Beats, ValidChunk;
      found, c := false, 0;
      var bestReuse := INT64_MIN;
      var d := 0;
      while d < |chunks|
        invariant d <= |chunks|
        invariant !found ==> bestReuse == INT64_MIN && forall e: nat :: e < d ==> !FitsLast(st, size, e)
        invariant found ==> FitsLast(st, size, c) && BestBelow(st, size, c, d) && bestReuse == AllocRuns.Reuse(st[c], size)
      {
        var chunk := chunks[d];
        if found { BestNext(st, size, c, d); }
        if chunk.nFreeBlocks > 0 {
          var block := chunk.freeBlocks[chunk.nFreeBlocks - 1];
          assert block == st[d].blocks[|st[d].blocks| - 1];
          BlockInside(st[d], |st[d].blocks| - 1, alignment);
          var reuseFactor := chunk.maxSize - block.offset - size;
          var betterReuse := bestReuse < 0 && reuseFactor > bestReuse;
          var betterFit := reuseFactor >= 0 && reuseFactor < bestReuse;
          if !found && block.size >= size { BestFirst(st, size, d); }
          if block.size >= size && (betterReuse || betterFit) {
            found, c, bestReuse := true, d, reuseFactor;
          }
        }
        d := d + 1;
      }
      if found { BestOfAll(st, size, c); }
    }

    /** Append a fresh chunk; false when all sixteen are in use. */
    method AddChunk(minSize: nat) returns (ok: bool)
      requires Valid() && 0 < minSize <= SIZE_MAX / 2
      modifies this
      ensures Valid() && fresh(Repr - old(Repr)) && old(Repr) <= Repr
      ensures ok <==> |old(st)| < MAX_CHUNKS
      ensures st == if ok then old(st) + [NewChunk(|old(st)|, maxChunkSize, minSize)] else old(st)
    {
      if |chunks| >= MAX_CHUNKS {
        return false;
      }
      NewChunkValid(|chunks|, maxChunkSize, minSize, alignment);
      var size := if |chunks| == MAX_CHUNKS - 1 then SIZE_MAX / 2 else Max(minSize, maxChunkSize);
      var chunk := new TallocrChunk(size);
      chunks := chunks + [chunk];
      st := st + [chunk.State()];
      Repr := Repr + {chunk, chunk.freeBlocks};
      return true;
    }

    /** Allocate: the returned address is the chosen block's start.  Fails, changing nothing
        reachable, exactly when no block fits and no chunk can be added. */
    method Alloc(request: nat) returns (ok: bool, c: nat, offset: nat)
      requires Valid() && 0 < request && AlignUp(request, alignment) <= SIZE_MAX / 2
      modifies Repr
      ensures Valid() && fresh(Repr - old(Repr)) && old(Repr) <= Repr
      ensures !ok <==> Full(old(st), AlignUp(request, alignment))
      ensures !ok ==> st == old(st)
      ensures ok ==> exists i: nat ::
                AllocStep(old(st), st, maxChunkSize, AlignUp(request, alignment), c, i)
                && offset == Grown(old(st), c, maxChunkSize, AlignUp(request, alignment))[c].blocks[i].offset
      ensures ok ==> TakesRange(old(st), st, c, offset, AlignUp(request, alignment)) && offset % alignment == 0
    {
      hide AlignUp, NoneFits, TakesRange, Chosen, ValidChunks;
      AlignUpIsLeastMultiple(request, alignment);
      FewChunks(st, alignment);
      ghost var was := st;
      var size := AlignUp(request, alignment);
      var found, i;
      found, c, i := Choose(size);
      if !found {
        c, i := |chunks|, 0;
        NewChunkValid(|st|, maxChunkSize, size, alignment);
        ok := AddChunk(size);
        if !ok {
          return false, 0, 0;
        }
      }
      assert st == Grown(was, c, maxChunkSize, size);
      offset := TakeIn(c, i, size);
      FewChunks(st, alignment);
      assert AllocStep(was, st, maxChunkSize, size, c, i);
      ghost var o := AllocTakesRange(old(st), st, maxChunkSize, size, c, i, alignment);
      ok := true;
    }

    method Choose(size: nat) returns (found: bool, c: nat, i: nat)
      requires Valid() && 0 < size <= SIZE_MAX / 2
      ensures found ==> Chosen(st, size, c, i) && c < |st| && i < |st[c].blocks| && size <= st[c].blocks[i].size
      ensures !found <==> NoneFits(st, size)
      ensures !found ==> Chosen(st, size, |st|, 0)
    {
      hide Chosen, NoneFits, Tightest, BestLast, Fits, FitsLast;
      found, c, i := FindBestFit(size);
      if !found {
        found, c := FindLastBlock(size);
        if found {
          LastIsChosen(st, size, c);
          i := chunks[c].nFreeBlocks - 1;
        } else {
          NewIsChosen(st, size);
        }
      } else {
        FitIsChosen(st, size, c, i);
      }
    }

    method TakeIn(c: nat, i: nat, size: nat) returns (offset: nat)
      requires Valid() && c < |st| && i < |st[c].blocks| && 0 < size <= st[c].blocks[i].size
      requires size % alignment == 0
      modifies Repr
      ensures Valid() && Repr == old(Repr)
      ensures st == old(st)[c := TakeFrom(old(st)[c], i, size)] && offset == old(st)[c].blocks[i].offset
    {
      var chunk := chunks[c];
      offset := chunk.freeBlocks[i].offset;
      TakeKeepsValid(st[c], i, size, alignment);
      chunk.TakeBlock(i, size);
      st := st[c := chunk.State()];
    }

    /** Give a taken, aligned range back.  Aborts only when the chunk's free list is full. */
    method Free(c: nat, offset: nat, request: nat) returns (ok: bool)
      requires Valid() && c < |st| && 0 < request && offset % alignment == 0
      requires offset + AlignUp(request, alignment) <= st[c].extent
      requires forall x: nat :: offset <= x < offset + AlignUp(request, alignment) ==> !IsFree(st[c].blocks, x)
      modifies Repr
      ensures Valid() && Repr == old(Repr)
      ensures ok <==> |GiveBack(old(st)[c], offset, AlignUp(request, alignment)).blocks| <= MAX_FREE_BLOCKS
      ensures !ok ==> st == old(st) && |st[c].blocks| == MAX_FREE_BLOCKS
      ensures ok ==> FreeStep(old(st), st, c, offset, AlignUp(request, alignment))
                     && GivesRange(old(st), st, c, offset, AlignUp(request, alignment))
    {
      var size := AlignUp(request, alignment);
      var chunk := chunks[c];
      GiveBackKeepsValid(st[c], offset, size, alignment);
      ok := chunk.FreeRange(offset, size);
      st := st[c := chunk.State()];
    }
  }

  lemma InsertPosPast(bs: seq<Block>, offset: nat, i: nat)
    requires i < |bs| && i <= InsertPos(bs, offset) && bs[i].offset < offset
    ensures i < InsertPos(bs, offset)
  {
  }

  lemma InsertPosStop(bs: seq<Block>, offset: nat, i: nat)
    requires i <= InsertPos(bs, offset) && (i < |bs| ==> bs[i].offset >= offset)
    ensures i == InsertPos(bs, offset)
  {
  }
}
