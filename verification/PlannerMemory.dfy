/** The memory half of the graph planner's invariant: which address ranges the tensors that
    are marked allocated hold in the dynamic allocators. */
module PlannerMemory {
  import opened Arith
  import opened FreeBlocks
  import opened AllocRuns
  import opened GraphPlan

  /** The planner's record of one tensor; `addr` names buffer, chunk and offset. */
  datatype HashNode = HashNode(nChildren: int, nViews: int, addr: Addr, owned: bool)

  const BLANK := HashNode(0, 0, Addr(0, 0, 0), false)

  type Heaps = seq<seq<ChunkState>>

  /** Bytes tensor `t` takes in buffer type `b`: its allocation size, rounded up. */
  function Padded(g: Graph, aligns: seq<nat>, t: nat, b: nat): (n: nat)
    requires t < |g.tensors| && b < |g.tensors[t].sizes| && b < |aligns| && aligns[b] > 0
    ensures n >= g.tensors[t].sizes[b]
  {
    AlignUp(g.tensors[t].sizes[b], aligns[b])
  }

  ghost predicate Taken(ch: ChunkState, offset: nat, size: nat) {
    forall x: nat :: offset <= x < offset + size ==> !IsFree(ch.blocks, x)
  }

  ghost predicate Sized(g: Graph, aligns: seq<nat>) {
    && |aligns| == g.buffers
    && (forall b :: 0 <= b < |aligns| ==> aligns[b] > 0)
    && forall t :: 0 <= t < |g.tensors| ==> g.WellSized(t)
  }

  /** The record's address range is aligned, inside its chunk, and taken there. */
  ghost predicate Holds(g: Graph, aligns: seq<nat>, heaps: Heaps, t: nat, a: Addr)
    requires Sized(g, aligns) && t < |g.tensors|
  {
    && a.buffer < |heaps| == |aligns|
    && g.WellSized(t)
    && a.chunk < |heaps[a.buffer]|
    && a.offset % aligns[a.buffer] == 0
    && var n := Padded(g, aligns, t, a.buffer);
       && n > 0
       && a.offset + n <= heaps[a.buffer][a.chunk].extent
       && a.offset + n <= heaps[a.buffer][a.chunk].maxSize
       && Taken(heaps[a.buffer][a.chunk], a.offset, n)
  }

  /** Same chunk, and the padded ranges overlap. */
  ghost predicate Clash(g: Graph, aligns: seq<nat>, t: nat, a: Addr, u: nat, b: Addr)
    requires Sized(g, aligns) && t < |g.tensors| && u < |g.tensors|
  {
    && a.buffer == b.buffer && a.chunk == b.chunk
    && a.buffer < |aligns|
    && g.WellSized(t) && g.WellSized(u)
    && a.offset < b.offset + Padded(g, aligns, u, b.buffer)
    && b.offset < a.offset + Padded(g, aligns, t, a.buffer)
  }

  /** Only tensors the planner manages are ever marked allocated (so the branch that reuses a
      view parent is dead); each holds its range, and no two ranges clash. */
  ghost predicate MemoryInv(g: Graph, aligns: seq<nat>, hash: seq<HashNode>, heaps: Heaps)
    requires Sized(g, aligns)
  {
    && |hash| == |g.tensors| && |heaps| == |aligns|
    && (forall t :: 0 <= t < |hash| && hash[t].owned ==> g.Managed(t) && Holds(g, aligns, heaps, t, hash[t].addr))
    && (forall t, u :: 0 <= t < |hash| && 0 <= u < |hash| && t != u && hash[t].owned && hash[u].owned ==>
          !Clash(g, aligns, t, hash[t].addr, u, hash[u].addr))
  }

  /** A fresh range clashes with nothing that was held before it was taken. */
  lemma FreshDoesNotClash(g: Graph, aligns: seq<nat>, heaps: Heaps, st': seq<ChunkState>, t: nat, a: Addr, u: nat, b: Addr)
    requires Sized(g, aligns) && t < |g.tensors| && u < |g.tensors| && Holds(g, aligns, heaps, u, b)
    requires a.buffer < |heaps| == |aligns| && g.WellSized(t)
    requires TakesRange(heaps[a.buffer], st', a.chunk, a.offset, Padded(g, aligns, t, a.buffer))
    ensures !Clash(g, aligns, t, a, u, b) && !Clash(g, aligns, u, b, t, a)
  {
    if a.buffer == b.buffer && a.chunk == b.chunk {
      var x := if a.offset >= b.offset then a.offset else b.offset;
      var wasFree := IsFree(heaps[b.buffer][b.chunk].blocks, x);
    }
  }

  /** Taking a range away from the free list leaves every held range held. */
  lemma TakingKeepsHolds(g: Graph, aligns: seq<nat>, heaps: Heaps, b: nat, st': seq<ChunkState>, c: nat, offset: nat, size: nat,
                         u: nat, a: Addr)
    requires Sized(g, aligns) && u < |g.tensors| && Holds(g, aligns, heaps, u, a)
    requires b < |heaps| && TakesRange(heaps[b], st', c, offset, size)
    ensures Holds(g, aligns, heaps[b := st'], u, a)
  {
    if a.buffer == b {
      if a.chunk == c {
        var n := Padded(g, aligns, u, b);
        forall x: nat | a.offset <= x < a.offset + n ensures !IsFree(st'[c].blocks, x) {
          assert !IsFree(heaps[b][c].blocks, x);
        }
      } else {
        assert st'[a.chunk] == heaps[b][a.chunk];
      }
    }
  }

  lemma FreshKeepsMemory(g: Graph, aligns: seq<nat>, hash: seq<HashNode>, heaps: Heaps, st': seq<ChunkState>, t: nat, a: Addr)
    requires Sized(g, aligns) && MemoryInv(g, aligns, hash, heaps) && t < |hash| && g.Managed(t)
    requires a.buffer < |heaps| && a.offset % aligns[a.buffer] == 0 && !hash[t].owned
    requires g.WellSized(t) && TakesRange(heaps[a.buffer], st', a.chunk, a.offset, Padded(g, aligns, t, a.buffer))
    ensures MemoryInv(g, aligns, hash[t := hash[t].(addr := a, owned := true)], heaps[a.buffer := st'])
  {
    var hash' := hash[t := hash[t].(addr := a, owned := true)];
    var heaps' := heaps[a.buffer := st'];
    forall u | 0 <= u < |hash| && hash'[u].owned ensures g.Managed(u) && Holds(g, aligns, heaps', u, hash'[u].addr) {
      if u != t {
        TakingKeepsHolds(g, aligns, heaps, a.buffer, st', a.chunk, a.offset, Padded(g, aligns, t, a.buffer), u, hash[u].addr);
      }
    }
    forall u | 0 <= u < |hash| && u != t && hash[u].owned
      ensures !Clash(g, aligns, t, a, u, hash[u].addr) && !Clash(g, aligns, u, hash[u].addr, t, a)
    {
      FreshDoesNotClash(g, aligns, heaps, st', t, a, u, hash[u].addr);
    }
  }

  /** Giving back bytes that only `t` holds leaves every other held range held. */
  lemma GivingKeepsHolds(g: Graph, aligns: seq<nat>, heaps: Heaps, b: nat, st': seq<ChunkState>, c: nat, offset: nat, size: nat,
                         u: nat, a: Addr)
    requires Sized(g, aligns) && u < |g.tensors| && Holds(g, aligns, heaps, u, a)
    requires b < |heaps| && GivesRange(heaps[b], st', c, offset, size)
    requires a.buffer == b && a.chunk == c ==>
               a.offset + Padded(g, aligns, u, b) <= offset || offset + size <= a.offset
    ensures Holds(g, aligns, heaps[b := st'], u, a)
  {
    if a.buffer == b {
      if a.chunk == c {
        var n := Padded(g, aligns, u, b);
        forall x: nat | a.offset <= x < a.offset + n ensures !IsFree(st'[c].blocks, x) {
          assert !IsFree(heaps[b][c].blocks, x);
        }
      } else {
        assert st'[a.chunk] == heaps[b][a.chunk];
      }
    }
  }

  lemma FreeKeepsMemory(g: Graph, aligns: seq<nat>, hash: seq<HashNode>, heaps: Heaps, st': seq<ChunkState>, t: nat)
    requires Sized(g, aligns) && MemoryInv(g, aligns, hash, heaps) && t < |hash| && hash[t].owned
    requires var a := hash[t].addr;
             Holds(g, aligns, heaps, t, a)
             && GivesRange(heaps[a.buffer], st', a.chunk, a.offset, Padded(g, aligns, t, a.buffer))
    ensures MemoryInv(g, aligns, hash[t := hash[t].(owned := false)], heaps[hash[t].addr.buffer := st'])
  {
    var a := hash[t].addr;
    forall u | 0 <= u < |hash| && u != t && hash[u].owned
      ensures Holds(g, aligns, heaps[a.buffer := st'], u, hash[u].addr)
    {
      assert !Clash(g, aligns, t, a, u, hash[u].addr);
      GivingKeepsHolds(g, aligns, heaps, a.buffer, st', a.chunk, a.offset, Padded(g, aligns, t, a.buffer), u, hash[u].addr);
    }
  }

  // ---- in-place reuse ----

  /** A node of aligned size and its parent's tail fill the parent's range. */
  lemma TailFills(parentSize: nat, nodeSize: nat, a: nat)
    requires a > 0 && 0 < nodeSize < parentSize && nodeSize % a == 0
    ensures nodeSize + AlignUp(parentSize - nodeSize, a) == AlignUp(parentSize, a)
  {
    ModAdd(nodeSize, parentSize - nodeSize, a);
  }

  predicate InRange(offset: nat, size: nat, x: nat) { offset <= x < offset + size }

  /** The chunk once the parent's tail has been given back on reuse, and once the node has been
      freed too. */
  function TailBack(ch: ChunkState, offset: nat, parentSize: nat, nodeSize: nat, a: nat): ChunkState
    requires a > 0 && nodeSize < parentSize
  {
    GiveBack(ch, offset + nodeSize, AlignUp(parentSize - nodeSize, a))
  }

  function AllBack(ch: ChunkState, offset: nat, parentSize: nat, nodeSize: nat, a: nat): ChunkState
    requires a > 0 && nodeSize < parentSize
  {
    GiveBack(TailBack(ch, offset, parentSize, nodeSize, a), offset, AlignUp(nodeSize, a))
  }

  ghost predicate HoldsParent(ch: ChunkState, offset: nat, parentSize: nat, a: nat)
    requires a > 0
  {
    && ValidChunk(ch, a) && offset % a == 0 && offset + AlignUp(parentSize, a) <= ch.extent
    && Taken(ch, offset, AlignUp(parentSize, a))
  }

  /** Reuse gives the tail back from the node's size unrounded.  The free list stays sound exactly
      when that size is a multiple of the alignment. */
  lemma TailKeepsValidIff(ch: ChunkState, offset: nat, parentSize: nat, nodeSize: nat, a: nat)
    requires a > 0 && 0 < nodeSize < parentSize && HoldsParent(ch, offset, parentSize, a)
    ensures ValidChunk(TailBack(ch, offset, parentSize, nodeSize, a), a) <==> nodeSize % a == 0
  {
    if nodeSize % a == 0 {
      AlignedTail(ch, offset, parentSize, nodeSize, a);
    } else {
      UnalignedTail(ch, offset, parentSize, nodeSize, a);
    }
  }

  /** Then the tail and the node give every byte of the parent back, and no other. */
  lemma AlignedTail(ch: ChunkState, offset: nat, parentSize: nat, nodeSize: nat, a: nat)
    requires a > 0 && 0 < nodeSize < parentSize && HoldsParent(ch, offset, parentSize, a) && nodeSize % a == 0
    ensures ValidChunk(TailBack(ch, offset, parentSize, nodeSize, a), a)
    ensures ValidChunk(AllBack(ch, offset, parentSize, nodeSize, a), a)
    ensures forall x: nat :: IsFree(AllBack(ch, offset, parentSize, nodeSize, a).blocks, x)
                        <==> IsFree(ch.blocks, x) || InRange(offset, AlignUp(parentSize, a), x)
  {
    var n, m := nodeSize, AlignUp(parentSize - nodeSize, a);
    TailFills(parentSize, nodeSize, a);
    AlignUpIsLeastMultiple(nodeSize, a);
    MultiplesAdd(offset, n, a);
    hide AlignUp, ValidChunk, IsFree, GiveBack;
    GiveBackKeepsValid(ch, offset + n, m, a);
    GiveBackKeepsValid(GiveBack(ch, offset + n, m), offset, n, a);
  }

  /** Otherwise the tail goes in as a block of its own, at an unaligned offset, and its first
      byte is given back again with the node. */
  lemma UnalignedTail(ch: ChunkState, offset: nat, parentSize: nat, nodeSize: nat, a: nat)
    requires a > 0 && 0 < nodeSize < parentSize && HoldsParent(ch, offset, parentSize, a) && nodeSize % a != 0
    ensures var tail := Block(offset + nodeSize, AlignUp(parentSize - nodeSize, a));
            && TailBack(ch, offset, parentSize, nodeSize, a).blocks == Insert(ch.blocks, tail)
            && tail.offset % a != 0 && tail.Has(offset + nodeSize)
    ensures !ValidChunk(TailBack(ch, offset, parentSize, nodeSize, a), a)
    ensures InRange(offset, AlignUp(nodeSize, a), offset + nodeSize)
  {
    var from, n := offset + nodeSize, AlignUp(parentSize - nodeSize, a);
    UnalignedEnds(offset, parentSize, nodeSize, a);
    hide AlignUp, Insert, Release, Taken, Aligned, Coalesced;
    forall k | 0 <= k < |ch.blocks| ensures ch.blocks[k].End() != from && from + n != ch.blocks[k].offset {
      NoTouch(ch, k, offset, AlignUp(parentSize, a), nodeSize, n, a);
    }
    ReleaseInserts(ch.blocks, 0, from, n);
    InsertUnaligned(ch.blocks, Block(from, n), a);
  }

  lemma InsertUnaligned(bs: seq<Block>, b: Block, a: nat)
    requires a > 0 && b.offset % a != 0
    ensures !Aligned(Insert(bs, b), a)
  {
    assert Insert(bs, b)[InsertPos(bs, b.offset)] == b;
  }

  lemma UnalignedEnds(offset: nat, parentSize: nat, nodeSize: nat, a: nat)
    requires a > 0 && 0 < nodeSize < parentSize && offset % a == 0 && nodeSize % a != 0
    ensures var n := AlignUp(parentSize - nodeSize, a);
            n > 0 && (offset + nodeSize) % a != 0 && (offset + nodeSize + n) % a != 0
    ensures nodeSize < AlignUp(nodeSize, a) && nodeSize < AlignUp(parentSize, a)
  {
    var n := AlignUp(parentSize - nodeSize, a);
    AlignUpIsLeastMultiple(parentSize - nodeSize, a);
    AlignUpIsLeastMultiple(nodeSize, a);
    ModAdd(offset, nodeSize, a);
    ModAdd(n, offset + nodeSize, a);
  }

  lemma NoTouch(ch: ChunkState, k: nat, offset: nat, held: nat, s: nat, n: nat, a: nat)
    requires a > 0 && ValidChunk(ch, a) && k < |ch.blocks| && Taken(ch, offset, held) && 0 < s < held
    requires (offset + s + n) % a != 0
    ensures ch.blocks[k].End() != offset + s && offset + s + n != ch.blocks[k].offset
  {
    if ch.blocks[k].End() == offset + s {
      assert ch.blocks[k].Has(offset + s - 1);
      assert IsFree(ch.blocks, offset + s - 1);
    }
  }

  lemma {:induction false} ReleaseInserts(bs: seq<Block>, i: nat, offset: nat, size: nat)
    requires i <= |bs| && forall k :: 0 <= k < |bs| ==> bs[k].End() != offset && offset + size != bs[k].offset
    ensures Release(bs, i, offset, size) == Insert(bs, Block(offset, size))
    decreases |bs| - i
  {
    if i < |bs| { ReleaseInserts(bs, i + 1, offset, size); }
  }

  /** Tensor `t` takes over the address of `p`; the free list is as it was, or has the tail
      back when `t` is smaller. */
  lemma ReuseKeepsMemory(g: Graph, aligns: seq<nat>, hash: seq<HashNode>, heaps: Heaps, heaps': Heaps, t: nat, p: nat)
    requires Sized(g, aligns) && MemoryInv(g, aligns, hash, heaps) && t < |hash| && p < |hash| && t != p
    requires hash[p].owned && !hash[t].owned && g.Managed(t) && Holds(g, aligns, heaps, p, hash[p].addr)
    requires ReuseHeaps(g, aligns, heaps, heaps', t, p, hash[p].addr)
    ensures MemoryInv(g, aligns, hash[p := hash[p].(owned := false)]
                                     [t := hash[t].(addr := hash[p].addr, owned := true)], heaps')
  {
    var a := hash[p].addr;
    var b := a.buffer;
    assert g.WellSized(t) && g.WellSized(p);
    var n, m := Padded(g, aligns, t, b), Padded(g, aligns, p, b);
    ReuseShrinks(g, aligns, t, p, b);
    ReusedHolds(g, aligns, heaps, heaps', t, p, a);
    forall u | 0 <= u < |hash| && u != t && u != p && hash[u].owned
      ensures Holds(g, aligns, heaps', u, hash[u].addr)
      ensures !Clash(g, aligns, t, a, u, hash[u].addr) && !Clash(g, aligns, u, hash[u].addr, t, a)
    {
      assert !Clash(g, aligns, p, a, u, hash[u].addr);
      if heaps' != heaps {
        var s, q := g.tensors[t].sizes[b], g.tensors[p].sizes[b];
        GivingKeepsHolds(g, aligns, heaps, b, heaps'[b], a.chunk, a.offset + s, AlignUp(q - s, aligns[b]), u, hash[u].addr);
        assert heaps' == heaps[b := heaps'[b]];
      }
    }
  }

  /** The free-list effect of `ggml_gallocr_free_extra_space`. */
  ghost predicate ReuseHeaps(g: Graph, aligns: seq<nat>, heaps: Heaps, heaps': Heaps, t: nat, p: nat, a: Addr)
    requires Sized(g, aligns) && t < |g.tensors| && p < |g.tensors|
  {
    && a.buffer < |heaps| == |heaps'| == |aligns|
    && g.WellSized(t) && g.WellSized(p)
    && var s, q := g.tensors[t].sizes[a.buffer], g.tensors[p].sizes[a.buffer];
       && s <= q
       && (s == q ==> heaps' == heaps)
       && (s < q ==>
             && s % aligns[a.buffer] == 0
             && heaps' == heaps[a.buffer := heaps'[a.buffer]]
             && GivesRange(heaps[a.buffer], heaps'[a.buffer], a.chunk, a.offset + s, AlignUp(q - s, aligns[a.buffer])))
  }

  lemma ReuseShrinks(g: Graph, aligns: seq<nat>, t: nat, p: nat, b: nat)
    requires Sized(g, aligns) && t < |g.tensors| && p < |g.tensors| && b < |aligns|
    requires g.WellSized(t) && g.WellSized(p)
    requires var s, q := g.tensors[t].sizes[b], g.tensors[p].sizes[b];
             s <= q && (s < q ==> s % aligns[b] == 0)
    ensures Padded(g, aligns, t, b) <= Padded(g, aligns, p, b)
    ensures var s, q := g.tensors[t].sizes[b], g.tensors[p].sizes[b];
            s < q ==> Padded(g, aligns, t, b) == s && s + AlignUp(q - s, aligns[b]) == Padded(g, aligns, p, b)
  {
    var s, q := g.tensors[t].sizes[b], g.tensors[p].sizes[b];
    if s < q {
      TailFills(q, s, aligns[b]);
      AlignUpIsLeastMultiple(s, aligns[b]);
    }
  }

  lemma ReusedHolds(g: Graph, aligns: seq<nat>, heaps: Heaps, heaps': Heaps, t: nat, p: nat, a: Addr)
    requires Sized(g, aligns) && t < |g.tensors| && p < |g.tensors| && Holds(g, aligns, heaps, p, a)
    requires ReuseHeaps(g, aligns, heaps, heaps', t, p, a)
    ensures Holds(g, aligns, heaps', t, a)
  {
    var b := a.buffer;
    ReuseShrinks(g, aligns, t, p, b);
    var n := Padded(g, aligns, t, b);
    forall x: nat | a.offset <= x < a.offset + n ensures !IsFree(heaps'[b][a.chunk].blocks, x) {
      assert !IsFree(heaps[b][a.chunk].blocks, x);
    }
  }

  /** What is left over of the parent's range starts aligned and is taken in full. */
  lemma TailIsTaken(g: Graph, aligns: seq<nat>, heaps: Heaps, t: nat, p: nat, a: Addr)
    requires Sized(g, aligns) && t < |g.tensors| && p < |g.tensors| && Holds(g, aligns, heaps, p, a) && g.WellSized(t)
    requires var s, q := g.tensors[t].sizes[a.buffer], g.tensors[p].sizes[a.buffer];
             s < q && s % aligns[a.buffer] == 0
    ensures var s, q := g.tensors[t].sizes[a.buffer], g.tensors[p].sizes[a.buffer];
            var n := AlignUp(q - s, aligns[a.buffer]);
            && (a.offset + s) % aligns[a.buffer] == 0
            && a.offset + s + n <= heaps[a.buffer][a.chunk].extent
            && Taken(heaps[a.buffer][a.chunk], a.offset + s, n)
  {
    ReuseShrinks(g, aligns, t, p, a.buffer);
    MultiplesAdd(a.offset, g.tensors[t].sizes[a.buffer], aligns[a.buffer]);
  }
}
