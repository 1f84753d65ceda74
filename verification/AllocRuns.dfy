/** What the dynamic tensor allocator promises over whole runs: in every reachable state the
    free blocks and the live allocations of each chunk partition it exactly. */
module AllocRuns {
  import opened Arith
  import opened FreeBlocks

  ghost predicate ValidChunks(st: seq<ChunkState>, a: nat)
    requires a > 0
  {
    && |st| <= MAX_CHUNKS
    && forall c :: 0 <= c < |st| ==> ValidChunk(st[c], a) && st[c].extent <= SIZE_MAX / 2
  }

  lemma FewChunks(st: seq<ChunkState>, a: nat)
    requires a > 0 && ValidChunks(st, a)
    ensures |st| <= MAX_CHUNKS
  {
  }

  // ---- which block an allocation takes ----

  /** Block `i` of chunk `c` is not the chunk's last block and is large enough. */
  ghost predicate Fits(st: seq<ChunkState>, size: nat, c: nat, i: nat) {
    c < |st| && i + 1 < |st[c].blocks| && st[c].blocks[i].size >= size
  }

  ghost predicate FitsLast(st: seq<ChunkState>, size: nat, c: nat) {
    c < |st| && |st[c].blocks| > 0 && st[c].blocks[|st[c].blocks| - 1].size >= size
  }

  /** Memory of the chunk's high-water mark left over when its last block is used; negative
      when the chunk would have to grow. */
  function Reuse(ch: ChunkState, size: nat): int
    requires |ch.blocks| > 0
  {
    ch.maxSize - ch.blocks[|ch.blocks| - 1].offset - size
  }

  /** The tightest non-last block of chunk `c`, the later one on a tie. */
  ghost predicate Tightest(st: seq<ChunkState>, size: nat, c: nat, i: nat) {
    && Fits(st, size, c, i)
    && forall j: nat :: Fits(st, size, c, j) ==>
         var x, y := st[c].blocks[i].size, st[c].blocks[j].size; x < y || (x == y && j <= i)
  }

  /** Reuse `r` is at least as good as reuse `q`: no growth beats growth, then waste or
      growth is least. */
  predicate NoWorse(r: int, q: int) {
    if r >= 0 then q < 0 || r <= q else q <= r
  }

  /** The last block of chunk `c` is preferred to that of `d`; the earlier chunk on a tie. */
  predicate Beats(x: ChunkState, c: nat, y: ChunkState, d: nat, size: nat)
    requires |x.blocks| > 0 && |y.blocks| > 0
  {
    && NoWorse(Reuse(x, size), Reuse(y, size))
    && (Reuse(x, size) == Reuse(y, size) ==> c <= d)
  }

  /** Chunk `c` is the best choice among the chunks before `n`. */
  ghost predicate BestBelow(st: seq<ChunkState>, size: nat, c: nat, n: nat) {
    && c < n && FitsLast(st, size, c)
    && forall d: nat :: d < n && FitsLast(st, size, d) ==> Beats(st[c], c, st[d], d, size)
  }

  /** A strictly better block takes over from the best so far; any other leaves it the best. */
  lemma BestNext(st: seq<ChunkState>, size: nat, c: nat, n: nat)
    requires BestBelow(st, size, c, n) && n < |st|
    ensures var better :=
                FitsLast(st, size, n) && ((Reuse(st[c], size) < 0 && Reuse(st[n], size) > Reuse(st[c], size))
                                          || 0 <= Reuse(st[n], size) < Reuse(st[c], size));
            FitsLast(st, size, c) && BestBelow(st, size, if better then n else c, n + 1)
  {
  }

  /** The first chunk with a last block large enough is the best so far. */
  lemma BestFirst(st: seq<ChunkState>, size: nat, n: nat)
    requires FitsLast(st, size, n) && forall d: nat :: d < n ==> !FitsLast(st, size, d)
    ensures BestBelow(st, size, n, n + 1)
  {
  }

  lemma BestOfAll(st: seq<ChunkState>, size: nat, c: nat)
    requires BestBelow(st, size, c, |st|)
    ensures BestLast(st, size, c)
  {
  }

  ghost predicate BestLast(st: seq<ChunkState>, size: nat, c: nat) {
    && FitsLast(st, size, c)
    && forall d: nat :: FitsLast(st, size, d) ==> Beats(st[c], c, st[d], d, size)
  }

  /** The allocator's choice.  Best fit is per chunk only: among the chunks that have a
      fitting non-last block the last one wins, whatever the sizes. */
  ghost predicate Chosen(st: seq<ChunkState>, size: nat, c: nat, i: nat) {
    if exists d: nat, j: nat :: Fits(st, size, d, j) then
      Tightest(st, size, c, i) && forall d: nat, j: nat :: Fits(st, size, d, j) ==> d <= c
    else if exists d: nat :: FitsLast(st, size, d) then
      BestLast(st, size, c) && i == |st[c].blocks| - 1
    else
      c == |st| && i == 0
  }

  ghost predicate NoneFits(st: seq<ChunkState>, size: nat) {
    && (forall d: nat, j: nat :: !Fits(st, size, d, j))
    && forall d: nat :: !FitsLast(st, size, d)
  }

  /** All chunks are in use and no block of any of them is large enough. */
  ghost predicate Full(st: seq<ChunkState>, size: nat) {
    |st| == MAX_CHUNKS && NoneFits(st, size)
  }

  lemma FitIsChosen(st: seq<ChunkState>, size: nat, c: nat, i: nat)
    requires Tightest(st, size, c, i) && forall d: nat, j: nat :: Fits(st, size, d, j) ==> d <= c
    ensures Chosen(st, size, c, i) && !NoneFits(st, size)
    ensures c < |st| && i < |st[c].blocks| && size <= st[c].blocks[i].size
  {
    hide Tightest, Fits;
    assert Fits(st, size, c, i) by { IsTight(st, size, c, i); }
    InBlocks(st, size, c, i);
  }

  lemma IsTight(st: seq<ChunkState>, size: nat, c: nat, i: nat)
    requires Tightest(st, size, c, i)
    ensures Fits(st, size, c, i)
  {
  }

  lemma InBlocks(st: seq<ChunkState>, size: nat, c: nat, i: nat)
    requires Fits(st, size, c, i)
    ensures c < |st| && i < |st[c].blocks| && size <= st[c].blocks[i].size
  {
  }

  lemma LastIsChosen(st: seq<ChunkState>, size: nat, c: nat)
    requires BestLast(st, size, c) && forall d: nat, j: nat :: !Fits(st, size, d, j)
    ensures c < |st| && |st[c].blocks| > 0 && size <= st[c].blocks[|st[c].blocks| - 1].size
    ensures Chosen(st, size, c, |st[c].blocks| - 1) && !NoneFits(st, size)
  {
    hide Fits, Beats;
    assert FitsLast(st, size, c);
  }

  lemma NewIsChosen(st: seq<ChunkState>, size: nat)
    requires (forall d: nat, j: nat :: !Fits(st, size, d, j)) && forall d: nat :: !FitsLast(st, size, d)
    ensures Chosen(st, size, |st|, 0) && NoneFits(st, size)
  {
    hide Fits, FitsLast;
  }

  function NewChunk(n: nat, maxChunkSize: nat, size: nat): ChunkState {
    var extent := if n == MAX_CHUNKS - 1 then SIZE_MAX / 2 else Max(size, maxChunkSize);
    ChunkState([Block(0, extent)], 0, extent)
  }

  /** The chunks with a fresh one appended when the choice falls outside them. */
  function Grown(st: seq<ChunkState>, c: nat, maxChunkSize: nat, size: nat): seq<ChunkState> {
    if c < |st| then st else st + [NewChunk(|st|, maxChunkSize, size)]
  }

  ghost predicate AllocStep(st: seq<ChunkState>, st': seq<ChunkState>, maxChunkSize: nat, size: nat, c: nat, i: nat) {
    && Chosen(st, size, c, i)
    && var g := Grown(st, c, maxChunkSize, size);
       && c < |g| && i < |g[c].blocks| && size <= g[c].blocks[i].size
       && st' == g[c := TakeFrom(g[c], i, size)]
  }

  predicate FreeStep(st: seq<ChunkState>, st': seq<ChunkState>, c: nat, offset: nat, size: nat) {
    c < |st| && st' == st[c := GiveBack(st[c], offset, size)]
  }

  // ---- one step ----

  /** What one allocation does to the sets of free offsets. */
  ghost predicate TakesRange(st: seq<ChunkState>, st': seq<ChunkState>, c: nat, offset: nat, size: nat) {
    && |st| <= |st'| && c < |st'|
    && (forall d :: 0 <= d < |st| && d != c ==> st'[d] == st[d])
    && (c < |st| ==> |st'| == |st| && st'[c].extent == st[c].extent && st'[c].maxSize >= st[c].maxSize)
    && (c >= |st| ==> c == |st| && |st'| == |st| + 1)
    && offset + size <= st'[c].maxSize && offset + size <= st'[c].extent
    && (forall x: nat :: offset <= x < offset + size ==> !IsFree(st'[c].blocks, x))
    && (forall x: nat :: offset <= x < offset + size && c < |st| ==> IsFree(st[c].blocks, x))
    && (forall x: nat :: c < |st| && !(offset <= x < offset + size) ==>
          (IsFree(st'[c].blocks, x) <==> IsFree(st[c].blocks, x)))
    && (forall x: nat :: c >= |st| && x < st'[c].extent && !(offset <= x < offset + size) ==>
          IsFree(st'[c].blocks, x))
  }

  ghost predicate GivesRange(st: seq<ChunkState>, st': seq<ChunkState>, c: nat, offset: nat, size: nat) {
    && |st'| == |st| && c < |st|
    && (forall d :: 0 <= d < |st| && d != c ==> st'[d] == st[d])
    && st'[c].extent == st[c].extent && st'[c].maxSize == st[c].maxSize
    && (forall x: nat :: IsFree(st'[c].blocks, x) <==> IsFree(st[c].blocks, x) || offset <= x < offset + size)
  }

  lemma NewChunkValid(n: nat, maxChunkSize: nat, size: nat, a: nat)
    requires a > 0 && 0 < size <= SIZE_MAX / 2 && maxChunkSize <= SIZE_MAX / 2
    ensures var ch := NewChunk(n, maxChunkSize, size);
            && ValidChunk(ch, a) && size <= ch.blocks[0].size && ch.extent <= SIZE_MAX / 2
            && forall x: nat :: x < ch.extent ==> IsFree(ch.blocks, x)
  {
    var ch := NewChunk(n, maxChunkSize, size);
    forall x: nat | x < ch.extent ensures IsFree(ch.blocks, x) {
      assert ch.blocks[0].Has(x);
    }
  }

  /** An allocation keeps every chunk valid and returns an aligned range that was free in its
      chunk and is taken out of it, and nothing else. */
  lemma AllocTakesRange(st: seq<ChunkState>, st': seq<ChunkState>, maxChunkSize: nat, size: nat, c: nat, i: nat, a: nat) returns (offset: nat)
    requires a > 0 && ValidChunks(st, a) && size > 0 && size % a == 0
    requires size <= SIZE_MAX / 2 && maxChunkSize <= SIZE_MAX / 2
    requires AllocStep(st, st', maxChunkSize, size, c, i) && |st'| <= MAX_CHUNKS
    ensures offset == Grown(st, c, maxChunkSize, size)[c].blocks[i].offset
    ensures ValidChunks(st', a) && offset % a == 0
    ensures TakesRange(st, st', c, offset, size)
  {
    var g := Grown(st, c, maxChunkSize, size);
    offset := g[c].blocks[i].offset;
    NewChunkValid(|st|, maxChunkSize, size, a);
    TakeKeepsValid(g[c], i, size, a);
    TakeFrees(g[c].blocks, i, size);
  }

  /** Freeing a range that is taken frees exactly it. */
  lemma FreeGivesRange(st: seq<ChunkState>, st': seq<ChunkState>, c: nat, offset: nat, size: nat, a: nat)
    requires a > 0 && ValidChunks(st, a) && size > 0 && offset % a == 0
    requires FreeStep(st, st', c, offset, size) && offset + size <= st[c].extent
    requires forall x: nat :: offset <= x < offset + size ==> !IsFree(st[c].blocks, x)
    ensures ValidChunks(st', a)
    ensures GivesRange(st, st', c, offset, size)
  {
    GiveBackKeepsValid(st[c], offset, size, a);
  }

  // ---- whole runs ----

  datatype Live = Live(chunk: nat, offset: nat, size: nat) {
    predicate Has(c: nat, x: nat) { c == chunk && offset <= x < offset + size }
  }

  datatype Heap = Heap(chunks: seq<ChunkState>, live: set<Live>)

  ghost predicate Covered(live: set<Live>, c: nat, x: nat) {
    exists l :: l in live && l.Has(c, x)
  }

  /** Free blocks and live allocations partition every chunk: each offset below the extent is
      free or in exactly one live range, never both, and no live range passes `maxSize`. */
  ghost predicate Partitioned(h: Heap, a: nat)
    requires a > 0
  {
    && ValidChunks(h.chunks, a)
    && (forall l :: l in h.live ==>
          && l.chunk < |h.chunks| && l.size > 0 && l.offset % a == 0
          && l.offset + l.size <= h.chunks[l.chunk].maxSize
          && l.offset + l.size <= h.chunks[l.chunk].extent)
    && (forall c, x: nat :: 0 <= c < |h.chunks| && x < h.chunks[c].extent ==>
          (IsFree(h.chunks[c].blocks, x) <==> !Covered(h.live, c, x)))
    && NoOverlap(h.live)
  }

  ghost predicate NoOverlap(live: set<Live>) {
    forall l, k, c: nat, x: nat :: l in live && k in live && l.Has(c, x) && k.Has(c, x) ==> l == k
  }

  ghost predicate AllocNext(h: Heap, h': Heap, maxChunkSize: nat, a: nat)
    requires a > 0
  {
    exists request: nat, c: nat, i: nat ::
      && 0 < request && AlignUp(request, a) <= SIZE_MAX / 2
      && AllocStep(h.chunks, h'.chunks, maxChunkSize, AlignUp(request, a), c, i)
      && |h'.chunks| <= MAX_CHUNKS
      && h'.live == h.live + {Live(c, Grown(h.chunks, c, maxChunkSize, AlignUp(request, a))[c].blocks[i].offset,
                                   AlignUp(request, a))}
  }

  ghost predicate FreeNext(h: Heap, h': Heap) {
    exists l :: l in h.live && FreeStep(h.chunks, h'.chunks, l.chunk, l.offset, l.size) && h'.live == h.live - {l}
  }

  /** The heap once `l` is cut to its first `size` bytes and its tail given back. */
  ghost predicate Shrunk(h: Heap, h': Heap, l: Live, size: nat, a: nat)
    requires a > 0
  {
    && l in h.live && 0 < size < l.size && size % a == 0
    && FreeStep(h.chunks, h'.chunks, l.chunk, l.offset + size, l.size - size)
    && h'.live == h.live - {l} + {l.(size := size)}
  }

  /** The caller keeps the start of a live range for a smaller tensor and frees the tail. */
  ghost predicate ShrinkNext(h: Heap, h': Heap, a: nat)
    requires a > 0
  {
    exists l, size: nat :: Shrunk(h, h', l, size, a)
  }

  ghost predicate Next(h: Heap, h': Heap, maxChunkSize: nat, a: nat)
    requires a > 0
  {
    AllocNext(h, h', maxChunkSize, a) || FreeNext(h, h') || ShrinkNext(h, h', a)
  }

  lemma AllocKeepsPartition(h: Heap, h': Heap, c: nat, offset: nat, size: nat, a: nat)
    requires a > 0 && Partitioned(h, a) && ValidChunks(h'.chunks, a) && size > 0 && offset % a == 0
    requires TakesRange(h.chunks, h'.chunks, c, offset, size)
    requires h'.live == h.live + {Live(c, offset, size)}
    ensures Partitioned(h', a)
    ensures forall l, x: nat :: l in h.live && l.Has(c, x) ==> !(offset <= x < offset + size)
  {
    hide NoOverlap;
    var n := Live(c, offset, size);
    forall l, x: nat | l in h.live && l.Has(c, x) ensures !(offset <= x < offset + size) {
      LiveIsTaken(h, l, c, x, a);
    }
    NoOverlapPlus(h.live, n);
    forall d, x: nat | 0 <= d < |h'.chunks| && x < h'.chunks[d].extent
      ensures IsFree(h'.chunks[d].blocks, x) <==> !Covered(h'.live, d, x)
    {
      FreeOrCovered(h, h', c, offset, size, a, d, x);
    }
  }

  lemma NoOverlapPlus(live: set<Live>, n: Live)
    requires NoOverlap(live)
    requires forall l, x: nat :: l in live && l.Has(n.chunk, x) ==> !(n.offset <= x < n.offset + n.size)
    ensures NoOverlap(live + {n})
  {
  }

  lemma LiveIsTaken(h: Heap, l: Live, c: nat, x: nat, a: nat)
    requires a > 0 && Partitioned(h, a) && l in h.live && l.Has(c, x)
    ensures c < |h.chunks| && x < h.chunks[c].extent && !IsFree(h.chunks[c].blocks, x)
  {
    assert Covered(h.live, c, x);
  }

  lemma FreeOrCovered(h: Heap, h': Heap, c: nat, offset: nat, size: nat, a: nat, d: nat, x: nat)
    requires a > 0 && Partitioned(h, a) && size > 0
    requires TakesRange(h.chunks, h'.chunks, c, offset, size)
    requires h'.live == h.live + {Live(c, offset, size)}
    requires d < |h'.chunks| && x < h'.chunks[d].extent
    ensures IsFree(h'.chunks[d].blocks, x) <==> !Covered(h'.live, d, x)
  {
    CoveredPlus(h.live, Live(c, offset, size), d, x);
    if d >= |h.chunks| {
      assert forall l :: l in h.live ==> !l.Has(d, x);
    }
  }

  lemma CoveredPlus(live: set<Live>, n: Live, c: nat, x: nat)
    ensures Covered(live + {n}, c, x) <==> Covered(live, c, x) || n.Has(c, x)
  {
    if n.Has(c, x) { assert n in live + {n}; }
    if Covered(live, c, x) {
      var l :| l in live && l.Has(c, x);
      assert l in live + {n};
    }
  }

  lemma FreeKeepsPartition(h: Heap, h': Heap, l: Live, a: nat)
    requires a > 0 && Partitioned(h, a) && l in h.live
    requires FreeStep(h.chunks, h'.chunks, l.chunk, l.offset, l.size) && h'.live == h.live - {l}
    ensures Partitioned(h', a)
  {
    forall x: nat | l.offset <= x < l.offset + l.size ensures !IsFree(h.chunks[l.chunk].blocks, x) {
      assert l.Has(l.chunk, x);
    }
    FreeGivesRange(h.chunks, h'.chunks, l.chunk, l.offset, l.size, a);
    forall d, x: nat | 0 <= d < |h'.chunks| && x < h'.chunks[d].extent
      ensures IsFree(h'.chunks[d].blocks, x) <==> !Covered(h'.live, d, x)
    {
      if l.Has(d, x) {
        assert forall k :: k in h'.live ==> !k.Has(d, x);
      } else if Covered(h.live, d, x) {
        var k :| k in h.live && k.Has(d, x);
        assert k in h'.live;
      }
    }
  }

  /** Freeing the tail of a live range leaves its start live and all else as it was. */
  lemma ShrinkKeepsPartition(h: Heap, h': Heap, l: Live, size: nat, a: nat)
    requires a > 0 && Partitioned(h, a) && Shrunk(h, h', l, size, a)
    ensures Partitioned(h', a)
  {
    hide NoOverlap, FreeStep;
    var n, tail := l.(size := size), l.size - size;
    forall x: nat | l.offset + size <= x < l.offset + l.size ensures !IsFree(h.chunks[l.chunk].blocks, x) {
      LiveIsTaken(h, l, l.chunk, x, a);
    }
    MultiplesAdd(l.offset, size, a);
    FreeGivesRange(h.chunks, h'.chunks, l.chunk, l.offset + size, tail, a);
    CutApart(h.live, l, size);
    forall d, x: nat | 0 <= d < |h'.chunks| && x < h'.chunks[d].extent
      ensures IsFree(h'.chunks[d].blocks, x) <==> !Covered(h'.live, d, x)
    {
      CutCovers(h.live, l, size, d, x);
    }
  }

  lemma CutApart(live: set<Live>, l: Live, size: nat)
    requires NoOverlap(live) && l in live && size < l.size
    ensures NoOverlap(live - {l} + {l.(size := size)})
  {
    forall k, c: nat, x: nat | k in live - {l} && k.Has(c, x) ensures !l.(size := size).Has(c, x) {
      assert k in live && !l.Has(c, x);
    }
  }

  /** Cutting a live range uncovers its tail and nothing else. */
  lemma CutCovers(live: set<Live>, l: Live, size: nat, c: nat, x: nat)
    requires NoOverlap(live) && l in live && size < l.size
    ensures Covered(live - {l} + {l.(size := size)}, c, x)
       <==> Covered(live, c, x) && !(c == l.chunk && l.offset + size <= x < l.offset + l.size)
  {
    CoveredPlus(live - {l}, l, c, x);
    assert live - {l} + {l} == live;
    CoveredPlus(live - {l}, l.(size := size), c, x);
    if l.Has(c, x) {
      assert forall k :: k in live - {l} ==> !k.Has(c, x);
    }
  }

  ghost predicate IsRun(run: seq<Heap>, maxChunkSize: nat, a: nat)
    requires a > 0
  {
    && |run| > 0 && run[0] == Heap([], {})
    && forall k :: 0 < k < |run| ==> Next(run[k - 1], run[k], maxChunkSize, a)
  }

  /** Safety over every run: from the empty allocator on, whatever is requested, freed and cut
      in whatever order, free blocks stay merged and partition the chunks with the live
      ranges. */
  lemma {:induction false} PartitionForever(run: seq<Heap>, k: nat, maxChunkSize: nat, a: nat)
    requires a > 0 && maxChunkSize <= SIZE_MAX / 2
    requires IsRun(run, maxChunkSize, a) && k < |run|
    ensures Partitioned(run[k], a)
  {
    if k > 0 {
      PartitionForever(run, k - 1, maxChunkSize, a);
      NextKeepsPartition(run[k - 1], run[k], maxChunkSize, a);
    }
  }

  lemma NextKeepsPartition(h: Heap, h': Heap, maxChunkSize: nat, a: nat)
    requires a > 0 && maxChunkSize <= SIZE_MAX / 2 && Partitioned(h, a) && Next(h, h', maxChunkSize, a)
    ensures Partitioned(h', a)
  {
    if FreeNext(h, h') {
      var l :| l in h.live && FreeStep(h.chunks, h'.chunks, l.chunk, l.offset, l.size) && h'.live == h.live - {l};
      FreeKeepsPartition(h, h', l, a);
    } else if ShrinkNext(h, h', a) {
      var l, size: nat :| Shrunk(h, h', l, size, a);
      ShrinkKeepsPartition(h, h', l, size, a);
    } else {
      var request: nat, c: nat, i: nat :|
        && 0 < request && AlignUp(request, a) <= SIZE_MAX / 2
        && AllocStep(h.chunks, h'.chunks, maxChunkSize, AlignUp(request, a), c, i)
        && |h'.chunks| <= MAX_CHUNKS
        && h'.live == h.live + {Live(c, Grown(h.chunks, c, maxChunkSize, AlignUp(request, a))[c].blocks[i].offset,
                                     AlignUp(request, a))};
      AlignUpIsLeastMultiple(request, a);
      var offset := AllocTakesRange(h.chunks, h'.chunks, maxChunkSize, AlignUp(request, a), c, i, a);
      AllocKeepsPartition(h, h', c, offset, AlignUp(request, a), a);
    }
  }
}
