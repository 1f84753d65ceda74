/** How the planner's invariant adds up to a safe plan. */
module PlannerSafety {
  import opened Wrappers
  import opened FreeBlocks
  import opened AllocRuns
  import opened GraphPlan
  import opened PlannerMemory
  import opened PlannerCounts

  // ---- what the planner asks of its input ----

  /** Where in-place reuse may shrink a tensor, the smaller size is a multiple of the alignment
      (see `TailKeepsValidIff`). */
  ghost predicate ShrinkOk(g: Graph, aligns: seq<nat>, t: nat, p: nat)
    requires Sized(g, aligns) && t < |g.tensors| && p < |g.tensors|
  {
    g.WellSized(t) && g.WellSized(p) &&
    forall b :: 0 <= b < |aligns| && g.tensors[t].sizes[b] < g.tensors[p].sizes[b] ==>
      g.tensors[t].sizes[b] % aligns[b] == 0
  }

  ghost predicate Addressable(g: Graph, aligns: seq<nat>, t: nat)
    requires Sized(g, aligns) && t < |g.tensors|
  {
    g.WellSized(t) && forall b :: 0 <= b < |aligns| ==> Padded(g, aligns, t, b) <= SIZE_MAX / 2
  }

  ghost predicate Plannable(g: Graph, aligns: seq<nat>) {
    && g.WellFormed() && Sized(g, aligns)
    && (forall t :: 0 <= t < |g.tensors| ==> Addressable(g, aligns, t))
    && (forall t, k :: 0 <= t < |g.tensors| && 0 <= k < |g.tensors[t].src|
                       && g.tensors[g.tensors[t].src[k]].layout == g.tensors[t].layout ==>
          ShrinkOk(g, aligns, t, g.tensors[t].src[k]))
  }

  lemma FreshFits(g: Graph, aligns: seq<nat>, t: nat, b: nat)
    requires Plannable(g, aligns) && Sized(g, aligns) && t < |g.tensors| && b < |aligns|
    ensures g.WellSized(t) && |g.tensors[t].sizes| == |aligns| && g.tensors[t].sizes[b] > 0
    ensures Padded(g, aligns, t, b) <= SIZE_MAX / 2
  {
    assert Addressable(g, aligns, t);
  }

  lemma PlannableParts(g: Graph, aligns: seq<nat>)
    requires Plannable(g, aligns)
    ensures g.WellFormed() && g.InRange() && Sized(g, aligns)
  {
  }

  // ---- when the planner may give up ----

  datatype Reason = NoReason | OutOfSlots(b: nat, c: nat) | OutOfChunks(t: nat, b: nat) | WouldGrow(t: nat, p: nat, b: nat)

  /** The only reasons to give up: a free list with no slot left, an allocator with no room in
      its last possible chunk, or a parent of the same layout too small to be reused. */
  ghost predicate Explains(g: Graph, aligns: seq<nat>, heaps: Heaps, why: Reason)
    requires Sized(g, aligns)
  {
    match why
    case NoReason => false
    case OutOfSlots(b, c) => b < |heaps| && c < |heaps[b]| && |heaps[b][c].blocks| == MAX_FREE_BLOCKS
    case OutOfChunks(t, b) =>
      t < |g.tensors| && g.WellSized(t) && b < |heaps| && b < |aligns| && Full(heaps[b], Padded(g, aligns, t, b))
    case WouldGrow(t, p, b) =>
      && t < |g.tensors| && p < |g.tensors|
      && g.tensors[t].op.Op? && g.tensors[t].op.inplace && p in g.tensors[t].src
      && g.tensors[t].layout == g.tensors[p].layout
      && b < |g.tensors[t].sizes| && b < |g.tensors[p].sizes| && g.tensors[p].sizes[b] < g.tensors[t].sizes[b]
  }

  // ---- the records as a plan ----

  ghost function PlanOf(g: Graph, hash: seq<HashNode>): Plan
    requires |hash| == |g.tensors|
  {
    map t: nat | t < |hash| && g.Managed(t) && (t in g.leafs || t in g.nodes) :: hash[t].addr
  }

  predicate Placed(g: Graph, t: nat, i: nat)
    requires t < |g.tensors| && i <= |g.nodes|
  {
    g.Managed(t) && g.Present(t, i)
  }

  predicate ApartRec(g: Graph, hash: seq<HashNode>, t: nat, u: nat)
    requires t < |g.tensors| == |hash| && u < |g.tensors|
  {
    var a, b := hash[t].addr, hash[u].addr;
    a.buffer < |g.tensors[t].sizes| && b.buffer < |g.tensors[u].sizes|
    && Apart(a, g.tensors[t].sizes[a.buffer], b, g.tensors[u].sizes[b.buffer])
  }

  ghost predicate SafeSoFar(g: Graph, hash: seq<HashNode>, i: nat)
    requires g.InRange() && |hash| == |g.tensors| && i <= |g.nodes|
  {
    && (forall j, t :: 0 <= j < i && 0 <= t < |hash| && MustSurvive(g, j, t) ==> ApartRec(g, hash, g.nodes[j], t))
    && (forall j, k :: 0 <= j < i && 0 <= k < |g.tensors[g.nodes[j]].src| && ReadsWhileWriting(g, j, k) ==>
          SourceRec(g, hash, j, k))
  }

  /** Node `j` lies apart from what is behind its source `k`, or has taken that source over. */
  ghost predicate SourceRec(g: Graph, hash: seq<HashNode>, j: nat, k: nat)
    requires g.InRange() && |hash| == |g.tensors| && j < |g.nodes| && k < |g.tensors[g.nodes[j]].src|
  {
    var n, s := g.nodes[j], g.tensors[g.nodes[j]].src[k];
    ApartRec(g, hash, n, g.Root(s)) || (hash[n].addr == hash[s].addr && MayTakeOver(g, j, s))
  }

  predicate MayTakeOver(g: Graph, j: nat, s: nat)
    requires g.InRange() && j < |g.nodes| && s < |g.tensors|
  {
    && g.tensors[g.nodes[j]].op.Op? && g.tensors[g.nodes[j]].op.inplace
    && g.Managed(s) && !g.tensors[s].output && !g.Needed(s, j + 1)
  }

  ghost predicate GivensApart(g: Graph, hash: seq<HashNode>)
    requires g.InRange() && |hash| == |g.tensors|
  {
    forall t, u :: 0 <= t < |hash| && 0 <= u < |hash| && BothGiven(g, t, u) ==> ApartRec(g, hash, t, u)
  }

  /** The recorded range of every placed tensor lies below the high-water mark of its chunk. */
  ghost predicate InBuffers(g: Graph, hash: seq<HashNode>, heaps: Heaps, i: nat)
    requires |hash| == |g.tensors| && i <= |g.nodes|
  {
    forall t :: 0 <= t < |hash| && Placed(g, t, i) ==> Below(g, hash[t].addr, heaps, t)
  }

  predicate Below(g: Graph, a: Addr, heaps: Heaps, t: nat)
    requires t < |g.tensors|
  {
    && a.buffer < |heaps| && a.buffer < |g.tensors[t].sizes|
    && a.chunk < |heaps[a.buffer]|
    && a.offset + g.tensors[t].sizes[a.buffer] <= heaps[a.buffer][a.chunk].maxSize
  }

  /** Chunks are only added, and high-water marks only rise. */
  ghost predicate Grew(heaps: Heaps, heaps': Heaps) {
    && |heaps'| == |heaps|
    && forall b :: 0 <= b < |heaps| ==> ChunksGrew(heaps[b], heaps'[b])
  }

  ghost predicate ChunksGrew(st: seq<ChunkState>, st': seq<ChunkState>) {
    |st| <= |st'| && forall c :: 0 <= c < |st| ==> st[c].maxSize <= st'[c].maxSize
  }

  lemma NoClashApart(g: Graph, aligns: seq<nat>, hash: seq<HashNode>, heaps: Heaps, t: nat, u: nat)
    requires Sized(g, aligns) && MemoryInv(g, aligns, hash, heaps)
    requires t < |hash| && u < |hash| && t != u && hash[t].owned && hash[u].owned
    ensures ApartRec(g, hash, t, u)
  {
    assert g.WellSized(t) && g.WellSized(u);
    assert !Clash(g, aligns, t, hash[t].addr, u, hash[u].addr);
  }

  lemma HeldBelow(g: Graph, aligns: seq<nat>, hash: seq<HashNode>, heaps: Heaps, t: nat)
    requires Sized(g, aligns) && MemoryInv(g, aligns, hash, heaps) && t < |hash| && hash[t].owned
    ensures Below(g, hash[t].addr, heaps, t)
  {
    assert Holds(g, aligns, heaps, t, hash[t].addr);
  }

  /** The finished records are a safe plan. */
  lemma RecordsAreSafe(g: Graph, aligns: seq<nat>, hash: seq<HashNode>, heaps: Heaps)
    requires g.WellFormed() && Sized(g, aligns) && |hash| == |g.tensors| && |heaps| == |aligns|
    requires SafeSoFar(g, hash, |g.nodes|) && GivensApart(g, hash) && InBuffers(g, hash, heaps, |g.nodes|)
    ensures SafePlan(g, PlanOf(g, hash))
  {
    var plan := PlanOf(g, hash);
    assert g.nodes[..|g.nodes|] == g.nodes;
    forall t | 0 <= t < |g.tensors| && (t in g.leafs || t in g.nodes) && g.Managed(t)
      ensures t in plan && plan[t].buffer < |g.tensors[t].sizes|
    {
      if t in g.leafs { LeafGiven(g, t); }
      assert Placed(g, t, |g.nodes|);
    }
    forall t, u | 0 <= t < |g.tensors| && 0 <= u < |g.tensors| && BothGiven(g, t, u) ensures Disjoint(g, plan, t, u) {
      assert ApartRec(g, hash, t, u);
    }
    forall i, t | 0 <= i < |g.nodes| && 0 <= t < |g.tensors| && MustSurvive(g, i, t) ensures Disjoint(g, plan, g.nodes[i], t) {
      assert ApartRec(g, hash, g.nodes[i], t);
      PresentInGraph(g, t, i);
    }
    forall i, k | 0 <= i < |g.nodes| && 0 <= k < |g.tensors[g.nodes[i]].src| && ReadsWhileWriting(g, i, k)
      ensures SourceApart(g, plan, i, k)
    {
      assert SourceRec(g, hash, i, k);
      SourceIsThere(g, i, k);
      PresentInGraph(g, g.Root(g.tensors[g.nodes[i]].src[k]), i);
    }
  }

  lemma PresentInGraph(g: Graph, t: nat, i: nat)
    requires t < |g.tensors| && i <= |g.nodes| && g.Present(t, i)
    ensures t in g.leafs || t in g.nodes
  {
  }

  // ---- liveness ----

  /** Whatever is placed and not finished still owns its range. */
  ghost predicate Live(g: Graph, hash: seq<HashNode>, pend: seq<nat>, i: nat)
    requires g.InRange() && |hash| == |pend| == |g.tensors| && i <= |g.nodes|
  {
    forall t :: 0 <= t < |hash| && Placed(g, t, i) ==> hash[t].owned || Finished(g, pend, t)
  }

  /** Ahead of node `i`, managed nodes own memory exactly when they are inputs. */
  ghost predicate Ahead(g: Graph, hash: seq<HashNode>, i: nat)
    requires g.InRange() && |hash| == |g.tensors|
  {
    forall m :: i <= m < |g.nodes| && g.Managed(g.nodes[m]) ==> (hash[g.nodes[m]].owned <==> g.tensors[g.nodes[m]].op.NoOp?)
  }

  ghost predicate SameAddrs(g: Graph, hash: seq<HashNode>, hash': seq<HashNode>, i: nat)
    requires |hash| == |hash'| == |g.tensors| && i <= |g.nodes|
  {
    forall t :: 0 <= t < |hash| && Placed(g, t, i) ==> hash'[t].addr == hash[t].addr
  }

  lemma PlacedLater(g: Graph, t: nat, i: nat, j: nat)
    requires t < |g.tensors| && i <= j <= |g.nodes| && g.Present(t, i)
    ensures g.Present(t, j)
  {
    if !g.Given(t) {
      var k :| 0 <= k < i && g.nodes[..i][k] == t;
      assert g.nodes[..j][k] == t;
    }
  }

  lemma SourceAddrs(g: Graph, hash: seq<HashNode>, hash': seq<HashNode>, i: nat, j: nat, k: nat)
    requires g.WellFormed() && |hash| == |hash'| == |g.tensors| && j < i <= |g.nodes| && SameAddrs(g, hash, hash', i)
    requires k < |g.tensors[g.nodes[j]].src| && ReadsWhileWriting(g, j, k)
    ensures var n, r := g.nodes[j], g.Root(g.tensors[g.nodes[j]].src[k]);
            hash'[n].addr == hash[n].addr && hash'[r].addr == hash[r].addr
  {
    var n, r := g.nodes[j], g.Root(g.tensors[g.nodes[j]].src[k]);
    SourceIsThere(g, j, k);
    PlacedLater(g, r, j, i);
    assert g.nodes[..i][j] == n;
    assert Placed(g, n, i) && Placed(g, r, i);
  }

  lemma SafetyKept(g: Graph, hash: seq<HashNode>, hash': seq<HashNode>, i: nat)
    requires g.WellFormed() && |hash| == |hash'| == |g.tensors| && i <= |g.nodes|
    requires SameAddrs(g, hash, hash', i) && SafeSoFar(g, hash, i) && GivensApart(g, hash)
    ensures SafeSoFar(g, hash', i) && GivensApart(g, hash')
  {
    forall j, t | 0 <= j < i && 0 <= t < |hash| && MustSurvive(g, j, t) ensures ApartRec(g, hash', g.nodes[j], t) {
      PlacedLater(g, t, j, i);
      assert g.nodes[..i][j] == g.nodes[j];
      assert Placed(g, g.nodes[j], i) && Placed(g, t, i);
      assert ApartRec(g, hash, g.nodes[j], t);
    }
    forall j, k | 0 <= j < i && 0 <= k < |g.tensors[g.nodes[j]].src| && ReadsWhileWriting(g, j, k) ensures SourceRec(g, hash', j, k) {
      assert SourceRec(g, hash, j, k);
      SourceAddrs(g, hash, hash', i, j, k);
    }
    forall t, u | 0 <= t < |hash| && 0 <= u < |hash| && BothGiven(g, t, u) ensures ApartRec(g, hash', t, u) {
      assert Placed(g, t, i) && Placed(g, u, i);
      assert ApartRec(g, hash, t, u);
    }
  }

  // ---- placing one tensor ----

  /** A parent an in-place op may take over: its own, no output, same layout, read for the last
      time, no open views. */
  predicate Reusable(g: Graph, hash: seq<HashNode>, t: nat, p: nat)
    requires g.InRange() && |hash| == |g.tensors| && t < |hash| && p < |hash|
  {
    && hash[p].owned
    && !g.tensors[p].output && !(g.IsView(p) && g.tensors[g.Root(p)].output)
    && g.tensors[t].layout == g.tensors[p].layout
    && hash[p].nChildren == 1 && hash[p].nViews == 0
  }

  /** The parent an in-place operation takes over: its first reusable source, if it has one. */
  ghost predicate TakesOver(g: Graph, hash: seq<HashNode>, t: nat, consumed: Option<nat>)
    requires g.InRange() && |hash| == |g.tensors| && t < |hash|
  {
    var src := g.tensors[t].src;
    match consumed
    case None => forall k :: 0 <= k < |src| ==> !Reusable(g, hash, t, src[k])
    case Some(p) =>
      exists k :: 0 <= k < |src| && src[k] == p && Reusable(g, hash, t, src[k])
                  && forall j :: 0 <= j < k ==> !Reusable(g, hash, t, src[j])
  }

  lemma ReuseFits(g: Graph, aligns: seq<nat>, hash: seq<HashNode>, heaps: Heaps, t: nat, p: nat)
    requires Plannable(g, aligns) && g.InRange() && Sized(g, aligns) && MemoryInv(g, aligns, hash, heaps)
    requires |hash| == |g.tensors| && t < |hash| && p < |hash| && p in g.tensors[t].src && Reusable(g, hash, t, p)
    ensures ShrinkOk(g, aligns, t, p) && Holds(g, aligns, heaps, p, hash[p].addr)
  {
    var k :| 0 <= k < |g.tensors[t].src| && g.tensors[t].src[k] == p;
    assert ShrinkOk(g, aligns, t, g.tensors[t].src[k]);
  }

  lemma OwnedHolds(g: Graph, aligns: seq<nat>, hash: seq<HashNode>, heaps: Heaps, t: nat)
    requires Plannable(g, aligns) && Sized(g, aligns) && MemoryInv(g, aligns, hash, heaps) && t < |hash| && hash[t].owned
    ensures t < |g.tensors| && Holds(g, aligns, heaps, t, hash[t].addr)
    ensures var a := hash[t].addr;
            && a.buffer < |heaps| == |aligns| && |g.tensors[t].sizes| == |aligns| && g.tensors[t].sizes[a.buffer] > 0
            && a.chunk < |heaps[a.buffer]| && a.offset % aligns[a.buffer] == 0
            && a.offset + Padded(g, aligns, t, a.buffer) <= heaps[a.buffer][a.chunk].extent
            && Taken(heaps[a.buffer][a.chunk], a.offset, Padded(g, aligns, t, a.buffer))
  {
  }

  /** The effect of placing tensor `t` on the records. */
  ghost predicate PlaceEffect(g: Graph, hash: seq<HashNode>, hash': seq<HashNode>, t: nat, consumed: Option<nat>)
    requires g.InRange() && |hash| == |hash'| == |g.tensors| && t < |hash|
  {
    if !g.Managed(t) || hash[t].owned then
      hash' == hash && consumed.None?
    else
      var h := if consumed.Some? && consumed.value < |hash|
               then hash[consumed.value := hash[consumed.value].(owned := false)] else hash;
      && hash' == h[t := h[t].(addr := hash'[t].addr, owned := true)]
      && (consumed.Some? ==>
            var p := consumed.value;
            p < |hash| && p != t && p in g.tensors[t].src && Reusable(g, hash, t, p)
            && hash'[t].addr == hash[p].addr && g.tensors[t].op.Op? && g.tensors[t].op.inplace)
  }

  lemma ReuseEffect(g: Graph, hash: seq<HashNode>, hash': seq<HashNode>, t: nat, p: nat)
    requires g.InRange() && |hash| == |g.tensors| && t < |hash| && p < |hash| && p != t
    requires g.Managed(t) && !hash[t].owned && g.tensors[t].op.Op? && g.tensors[t].op.inplace
    requires p in g.tensors[t].src && Reusable(g, hash, t, p)
    requires hash' == hash[p := hash[p].(owned := false)][t := hash[t].(addr := hash[p].addr, owned := true)]
    ensures PlaceEffect(g, hash, hash', t, Some(p))
  {
  }

  /** The parent consumed by node `i`: its only remaining reads are in node `i` itself. */
  ghost predicate LastRead(g: Graph, pend: seq<nat>, i: nat, j: nat, p: nat)
    requires g.InRange() && |pend| == |g.tensors| && p < |pend| && i < |g.nodes| && j <= |g.tensors[g.nodes[i]].src|
  {
    !g.Keeps(p) && ViewsDone(g, pend, p) && pend[p] == RefsIn(g.tensors[g.nodes[i]].src, p, j)
  }

  ghost predicate LiveMid(g: Graph, hash: seq<HashNode>, pend: seq<nat>, i: nat, j: nat, consumed: Option<nat>)
    requires g.InRange() && |hash| == |pend| == |g.tensors| && i < |g.nodes| && j <= |g.tensors[g.nodes[i]].src|
  {
    forall t :: 0 <= t < |hash| && Placed(g, t, i + 1) ==>
      hash[t].owned || Finished(g, pend, t) || (consumed == Some(t) && LastRead(g, pend, i, j, t))
  }

  ghost predicate PendsAt(g: Graph, pend: seq<nat>, total: seq<nat>, i: nat, j: nat)
    requires g.InRange() && i < |g.nodes| && j <= |g.tensors[g.nodes[i]].src|
  {
    |pend| == |total| == |g.tensors| &&
    forall t :: 0 <= t < |pend| ==> pend[t] == Pending(g, t, i, j) && pend[t] <= total[t]
  }

  /** The part of the invariant that holds at the start of node `i`. */
  ghost predicate LoopInv(g: Graph, aligns: seq<nat>, hash: seq<HashNode>, heaps: Heaps, total: seq<nat>, pend: seq<nat>, i: nat) {
    && Plannable(g, aligns) && i <= |g.nodes|
    && MemoryInv(g, aligns, hash, heaps)
    && Counted(g, hash, total, pend) && PendsFrom(g, pend, i)
    && (forall t :: 0 <= t < |pend| ==> pend[t] <= total[t])
    && Live(g, hash, pend, i) && Freed(g, hash, pend, None) && Ahead(g, hash, i)
    && SafeSoFar(g, hash, i) && GivensApart(g, hash) && InBuffers(g, hash, heaps, i)
  }

  lemma ConsumedIsLastRead(g: Graph, hash: seq<HashNode>, total: seq<nat>, pend: seq<nat>, i: nat, p: nat)
    requires g.WellFormed() && i < |g.nodes| && Counted(g, hash, total, pend) && PendsFrom(g, pend, i)
    requires forall t :: 0 <= t < |pend| ==> pend[t] <= total[t]
    requires p < |hash| && p in g.tensors[g.nodes[i]].src && Reusable(g, hash, g.nodes[i], p) && !g.IsView(p)
    ensures LastRead(g, pend, i, 0, p) && RefsFrom(g, p, i + 1) == 0
  {
    var src := g.tensors[g.nodes[i]].src;
    var k :| 0 <= k < |src| && src[k] == p;
    assert g.ReadsRoot(i, p);
    RefsInPositive(src, p, 0, k);
    ZeroCountsMeanDone(g, hash, total, pend, p);
  }

  /** A consumed parent is not needed after its consumer. */
  lemma ConsumedNotNeeded(g: Graph, pend: seq<nat>, i: nat, p: nat)
    requires g.WellFormed() && i < |g.nodes| && PendsFrom(g, pend, i) && p < |g.tensors|
    requires LastRead(g, pend, i, 0, p) && RefsFrom(g, p, i + 1) == 0
    ensures !g.Needed(p, i + 1)
  {
    if g.Needed(p, i + 1) {
      var j :| i + 1 <= j < |g.nodes| && g.ReadsRoot(j, p);
      var k :| 0 <= k < |g.tensors[g.nodes[j]].src| && g.Root(g.tensors[g.nodes[j]].src[k]) == p;
      RefsFromPositive(g, g.tensors[g.nodes[j]].src[k], i + 1, j, k);
      ReadersPend(g, pend, i, j, k);
    }
  }

  /** The memory node `i` is given overlaps nothing that must survive it. */
  lemma NodeIsSafe(g: Graph, aligns: seq<nat>, hash: seq<HashNode>, heaps: Heaps, total: seq<nat>, pend: seq<nat>, i: nat,
                   hash': seq<HashNode>, heaps': Heaps, consumed: Option<nat>, t: nat)
    requires LoopInv(g, aligns, hash, heaps, total, pend, i) && i < |g.nodes|
    requires MemoryInv(g, aligns, hash', heaps') && PlaceEffect(g, hash, hash', g.nodes[i], consumed)
    requires t < |hash| && MustSurvive(g, i, t)
    ensures ApartRec(g, hash', g.nodes[i], t)
  {
    var n := g.nodes[i];
    assert !hash[n].owned;
    assert Placed(g, t, i);
    NeededBefore(g, t, i, i + 1);
    if !hash[t].owned {
      FinishedIsNotNeeded(g, pend, t, i);
    }
    if consumed == Some(t) {
      OwnedIsRoot(g, aligns, hash, heaps, t);
      ConsumedIsLastRead(g, hash, total, pend, i, t);
      ConsumedNotNeeded(g, pend, i, t);
    }
    NoClashApart(g, aligns, hash', heaps', n, t);
  }

  /** Nor does it overlap what the node reads, unless the node takes that over. */
  lemma SourceIsSafe(g: Graph, aligns: seq<nat>, hash: seq<HashNode>, heaps: Heaps, total: seq<nat>, pend: seq<nat>, i: nat,
                     hash': seq<HashNode>, heaps': Heaps, consumed: Option<nat>, k: nat)
    requires LoopInv(g, aligns, hash, heaps, total, pend, i) && i < |g.nodes|
    requires MemoryInv(g, aligns, hash', heaps') && PlaceEffect(g, hash, hash', g.nodes[i], consumed)
    requires k < |g.tensors[g.nodes[i]].src| && ReadsWhileWriting(g, i, k)
    ensures |hash'| == |g.tensors| && SourceRec(g, hash', i, k)
  {
    var n, s := g.nodes[i], g.tensors[g.nodes[i]].src[k];
    var r := g.Root(s);
    hide Plannable, Counted, PendsFrom, Freed, SafeSoFar, GivensApart, InBuffers, ApartRec, Finished, MemoryInv;
    PlannableParts(g, aligns);
    SameLengths(g, aligns, hash, heaps, total, pend, hash', heaps');
    SourceStillOwned(g, aligns, hash, heaps, total, pend, i, k);
    SourceDiffers(g, i, k);
    assert !hash[n].owned;
    if consumed == Some(r) {
      OwnedIsRoot(g, aligns, hash, heaps, r);
      ConsumedIsLastRead(g, hash, total, pend, i, r);
      ConsumedNotNeeded(g, pend, i, r);
      ConsumedDirectly(g, pend, i, k);
    } else {
      NoClashApart(g, aligns, hash', heaps', n, r);
    }
  }

  lemma OwnedIsRoot(g: Graph, aligns: seq<nat>, hash: seq<HashNode>, heaps: Heaps, t: nat)
    requires Sized(g, aligns) && MemoryInv(g, aligns, hash, heaps) && t < |hash| && hash[t].owned
    ensures g.Managed(t)
  {
  }

  /** What a source lies in is still owned when the node is placed. */
  lemma SourceStillOwned(g: Graph, aligns: seq<nat>, hash: seq<HashNode>, heaps: Heaps, total: seq<nat>, pend: seq<nat>,
                         i: nat, k: nat)
    requires LoopInv(g, aligns, hash, heaps, total, pend, i) && i < |g.nodes| && k < |g.tensors[g.nodes[i]].src|
    ensures var r := g.Root(g.tensors[g.nodes[i]].src[k]); g.Managed(r) ==> hash[r].owned
  {
    var r := g.Root(g.tensors[g.nodes[i]].src[k]);
    hide Finished, Counted, PendsFrom;
    SourceIsThere(g, i, k);
    assert g.ReadsRoot(i, r);
    ReadLater(g, pend, i, i, r);
    if g.Managed(r) { assert Placed(g, r, i); }
  }

  /** A tensor that is read through a view is not taken over. */
  lemma ConsumedDirectly(g: Graph, pend: seq<nat>, i: nat, k: nat)
    requires g.WellFormed() && i < |g.nodes| && k < |g.tensors[g.nodes[i]].src| && PendsFrom(g, pend, i)
    requires LastRead(g, pend, i, 0, g.Root(g.tensors[g.nodes[i]].src[k]))
    ensures !g.IsView(g.tensors[g.nodes[i]].src[k])
  {
    ReadersPend(g, pend, i, i, k);
  }

  /** The invariant inside node `i`, once it is placed and its first `j` sources are dealt with. */
  ghost predicate MidInv(g: Graph, aligns: seq<nat>, hash: seq<HashNode>, heaps: Heaps, total: seq<nat>, pend: seq<nat>,
                         i: nat, j: nat, consumed: Option<nat>) {
    && Plannable(g, aligns) && i < |g.nodes| && j <= |g.tensors[g.nodes[i]].src|
    && MemoryInv(g, aligns, hash, heaps)
    && PendsAt(g, pend, total, i, j) && Counted(g, hash, total, pend)
    && LiveMid(g, hash, pend, i, j, consumed) && Ahead(g, hash, i + 1)
    && SafeSoFar(g, hash, i + 1) && GivensApart(g, hash) && InBuffers(g, hash, heaps, i + 1)
  }

  lemma PlacedSplit(g: Graph, t: nat, i: nat)
    requires g.WellFormed() && i < |g.nodes| && t < |g.tensors|
    ensures Placed(g, t, i + 1) <==> Placed(g, t, i) || (t == g.nodes[i] && g.Managed(t))
    ensures t == g.nodes[i] && g.Managed(t) ==> (Placed(g, t, i) <==> g.tensors[t].op.NoOp?)
  {
    assert g.nodes[..i + 1] == g.nodes[..i] + [g.nodes[i]];
    assert g.NodeOk(i);
    forall j | 0 <= j < i ensures g.nodes[..i][j] != g.nodes[i] {
      assert !g.SameNode(j, i);
    }
  }

  lemma PlaceKeepsAddrs(g: Graph, aligns: seq<nat>, hash: seq<HashNode>, heaps: Heaps, total: seq<nat>, pend: seq<nat>, i: nat,
                        hash': seq<HashNode>, consumed: Option<nat>)
    requires LoopInv(g, aligns, hash, heaps, total, pend, i) && i < |g.nodes| && |hash'| == |hash|
    requires PlaceEffect(g, hash, hash', g.nodes[i], consumed)
    ensures SameAddrs(g, hash, hash', i)
  {
    forall t | 0 <= t < |hash| && Placed(g, t, i) ensures hash'[t].addr == hash[t].addr {
      PlacedSplit(g, t, i);
    }
  }

  lemma PlaceSafety(g: Graph, aligns: seq<nat>, hash: seq<HashNode>, heaps: Heaps, total: seq<nat>, pend: seq<nat>, i: nat,
                    hash': seq<HashNode>, heaps': Heaps, consumed: Option<nat>)
    requires LoopInv(g, aligns, hash, heaps, total, pend, i) && i < |g.nodes|
    requires MemoryInv(g, aligns, hash', heaps') && PlaceEffect(g, hash, hash', g.nodes[i], consumed)
    ensures SafeSoFar(g, hash', i + 1) && GivensApart(g, hash')
  {
    PlaceKeepsAddrs(g, aligns, hash, heaps, total, pend, i, hash', consumed);
    SafetyKept(g, hash, hash', i);
    forall j, t | 0 <= j < i + 1 && 0 <= t < |hash'| && MustSurvive(g, j, t) ensures ApartRec(g, hash', g.nodes[j], t) {
      hide Plannable, Counted, PendsFrom, Live, Freed, Ahead, GivensApart, InBuffers, ApartRec, MemoryInv, PlaceEffect;
      if j == i {
        NodeIsSafe(g, aligns, hash, heaps, total, pend, i, hash', heaps', consumed, t);
      }
    }
    forall j, k | 0 <= j < i + 1 && 0 <= k < |g.tensors[g.nodes[j]].src| && ReadsWhileWriting(g, j, k) ensures SourceRec(g, hash', j, k) {
      hide Plannable, Counted, PendsFrom, Live, Freed, Ahead, GivensApart, InBuffers, SourceRec, MemoryInv, PlaceEffect;
      if j == i {
        SourceIsSafe(g, aligns, hash, heaps, total, pend, i, hash', heaps', consumed, k);
      }
    }
  }

  /** A node that is just placed is not finished. */
  lemma PlaceFreed(g: Graph, hash: seq<HashNode>, pend: seq<nat>, i: nat, hash': seq<HashNode>, consumed: Option<nat>)
    requires g.WellFormed() && i < |g.nodes| && |hash| == |hash'| == |pend| == |g.tensors| && PendsFrom(g, pend, i)
    requires Freed(g, hash, pend, None) && PlaceEffect(g, hash, hash', g.nodes[i], consumed)
    ensures Freed(g, hash', pend, None)
  {
    var n := g.nodes[i];
    if g.IsRead(n) {
      var j :| 0 <= j < |g.nodes| && g.ReadsRoot(j, n);
      ReaderIsLater(g, i, j);
      ReadLater(g, pend, i, j, n);
    }
  }

  lemma ReaderIsLater(g: Graph, i: nat, j: nat)
    requires g.WellFormed() && i < |g.nodes| && j < |g.nodes| && g.ReadsRoot(j, g.nodes[i])
    ensures i < j
  {
    var k :| 0 <= k < |g.tensors[g.nodes[j]].src| && g.Root(g.tensors[g.nodes[j]].src[k]) == g.nodes[i];
    if j <= i { SourceIsNotAhead(g, j, g.tensors[g.nodes[j]].src[k], i); }
  }

  lemma PlaceBuffers(g: Graph, aligns: seq<nat>, hash: seq<HashNode>, heaps: Heaps, total: seq<nat>, pend: seq<nat>, i: nat,
                     hash': seq<HashNode>, heaps': Heaps, consumed: Option<nat>)
    requires LoopInv(g, aligns, hash, heaps, total, pend, i) && i < |g.nodes|
    requires MemoryInv(g, aligns, hash', heaps') && PlaceEffect(g, hash, hash', g.nodes[i], consumed) && Grew(heaps, heaps')
    ensures InBuffers(g, hash', heaps', i + 1)
  {
    PlaceKeepsAddrs(g, aligns, hash, heaps, total, pend, i, hash', consumed);
    forall t | 0 <= t < |hash'| && Placed(g, t, i + 1) ensures Below(g, hash'[t].addr, heaps', t) {
      PlacedSplit(g, t, i);
      if Placed(g, t, i) {
        assert Below(g, hash[t].addr, heaps, t);
      } else {
        HeldBelow(g, aligns, hash', heaps', t);
      }
    }
  }

  lemma PlaceLiveness(g: Graph, aligns: seq<nat>, hash: seq<HashNode>, heaps: Heaps, total: seq<nat>, pend: seq<nat>, i: nat,
                      hash': seq<HashNode>, consumed: Option<nat>)
    requires LoopInv(g, aligns, hash, heaps, total, pend, i) && i < |g.nodes| && |hash'| == |hash|
    requires PlaceEffect(g, hash, hash', g.nodes[i], consumed)
    ensures LiveMid(g, hash', pend, i, 0, consumed)
  {
    forall t | 0 <= t < |hash'| && Placed(g, t, i + 1)
      ensures hash'[t].owned || Finished(g, pend, t) || (consumed == Some(t) && LastRead(g, pend, i, 0, t))
    {
      PlacedSplit(g, t, i);
      if consumed == Some(t) {
        OwnedIsRoot(g, aligns, hash, heaps, t);
        ConsumedIsLastRead(g, hash, total, pend, i, t);
      }
    }
  }

  lemma PlaceAhead(g: Graph, hash: seq<HashNode>, i: nat, hash': seq<HashNode>, consumed: Option<nat>)
    requires g.WellFormed() && i < |g.nodes| && |hash| == |hash'| == |g.tensors| && Ahead(g, hash, i)
    requires PlaceEffect(g, hash, hash', g.nodes[i], consumed)
    ensures Ahead(g, hash', i + 1)
  {
    forall m | i + 1 <= m < |g.nodes| && g.Managed(g.nodes[m])
      ensures hash'[g.nodes[m]].owned <==> g.tensors[g.nodes[m]].op.NoOp?
    {
      assert !g.SameNode(m, i);
      if consumed.Some? && consumed.value < |hash| {
        SourceIsNotAhead(g, i, consumed.value, m);
      }
    }
  }

  lemma SourceIsNotAhead(g: Graph, i: nat, s: nat, m: nat)
    requires g.WellFormed() && i <= m < |g.nodes| && s in g.tensors[g.nodes[i]].src
    ensures g.nodes[m] != s
    ensures s < |g.tensors| && g.IsView(s) ==> g.nodes[m] != g.Root(s)
  {
    var k :| 0 <= k < |g.tensors[g.nodes[i]].src| && g.tensors[g.nodes[i]].src[k] == s;
    assert g.SourceOk(i, k);
    EarlierMonotone(g, s, i, m);
    LaterNodesDiffer(g, m, s);
    if g.IsView(s) {
      EarlierPresent(g, s, i);
      var j :| 0 <= j < i && g.nodes[j] == s;
      assert g.NodeOk(j);
      EarlierMonotone(g, g.Root(s), j, m);
      LaterNodesDiffer(g, m, g.Root(s));
    }
  }

  lemma PlaceGivesMid(g: Graph, aligns: seq<nat>, hash: seq<HashNode>, heaps: Heaps, total: seq<nat>, pend: seq<nat>, i: nat,
                      hash': seq<HashNode>, heaps': Heaps, consumed: Option<nat>)
    requires LoopInv(g, aligns, hash, heaps, total, pend, i) && i < |g.nodes|
    requires MemoryInv(g, aligns, hash', heaps') && PlaceEffect(g, hash, hash', g.nodes[i], consumed) && Grew(heaps, heaps')
    ensures MidInv(g, aligns, hash', heaps', total, pend, i, 0, consumed) && Freed(g, hash', pend, None)
  {
    hide Plannable, MemoryInv, Counted, PendsFrom, PendsAt, Live, LiveMid, Freed, Ahead, SafeSoFar, GivensApart, InBuffers;
    hide PlaceEffect;
    PlannableParts(g, aligns);
    SameLengths(g, aligns, hash, heaps, total, pend, hash', heaps');
    PlaceKeepsCounts(g, hash, total, pend, i, hash', consumed);
    PendsStart(g, pend, total, i);
    PlaceSafety(g, aligns, hash, heaps, total, pend, i, hash', heaps', consumed);
    PlaceBuffers(g, aligns, hash, heaps, total, pend, i, hash', heaps', consumed);
    PlaceLiveness(g, aligns, hash, heaps, total, pend, i, hash', consumed);
    PlaceAhead(g, hash, i, hash', consumed);
    PlaceFreed(g, hash, pend, i, hash', consumed);
  }

  lemma PlaceKeepsCounts(g: Graph, hash: seq<HashNode>, total: seq<nat>, pend: seq<nat>, i: nat,
                         hash': seq<HashNode>, consumed: Option<nat>)
    requires g.InRange() && i < |g.nodes| && Counted(g, hash, total, pend) && |hash'| == |hash|
    requires PlaceEffect(g, hash, hash', g.nodes[i], consumed)
    ensures Counted(g, hash', total, pend)
  {
  }

  lemma SameLengths(g: Graph, aligns: seq<nat>, hash: seq<HashNode>, heaps: Heaps, total: seq<nat>, pend: seq<nat>,
                    hash': seq<HashNode>, heaps': Heaps)
    requires g.InRange() && Sized(g, aligns) && MemoryInv(g, aligns, hash, heaps) && Counted(g, hash, total, pend)
    requires MemoryInv(g, aligns, hash', heaps')
    ensures |hash| == |hash'| == |total| == |pend| == |g.tensors|
  {
  }

  lemma PendsStart(g: Graph, pend: seq<nat>, total: seq<nat>, i: nat)
    requires g.InRange() && i < |g.nodes| && PendsFrom(g, pend, i) && |total| == |pend|
    requires forall t :: 0 <= t < |pend| ==> pend[t] <= total[t]
    ensures PendsAt(g, pend, total, i, 0)
  {
  }

  // ---- dealing with one source ----

  /** Drop tensor `t`'s ownership (or not): addresses and counters stay. */
  ghost predicate DropEffect(hash: seq<HashNode>, hash': seq<HashNode>, t: nat) {
    t < |hash| && (hash' == hash || hash' == hash[t := hash[t].(owned := false)])
  }

  lemma DropKeepsMid(g: Graph, aligns: seq<nat>, hash: seq<HashNode>, heaps: Heaps, total: seq<nat>, pend: seq<nat>,
                     i: nat, j: nat, consumed: Option<nat>, hash': seq<HashNode>, heaps': Heaps, t: nat)
    requires MidInv(g, aligns, hash, heaps, total, pend, i, j, consumed)
    requires MemoryInv(g, aligns, hash', heaps') && Grew(heaps, heaps') && DropEffect(hash, hash', t)
    requires Finished(g, pend, t) || hash' == hash
    requires forall m :: i + 1 <= m < |g.nodes| ==> g.nodes[m] != t
    ensures MidInv(g, aligns, hash', heaps', total, pend, i, j, consumed)
  {
    DropKeepsLive(g, hash, pend, i, j, consumed, hash', t);
    DropKeepsBuffers(g, hash, heaps, i, hash', heaps', t);
    DropKeepsCounts(g, hash, total, pend, hash', t);
    hide Plannable, MemoryInv, Counted, LiveMid, Ahead, InBuffers, PendsAt;
    PlannableParts(g, aligns);
    SafetyKept(g, hash, hash', i + 1);
  }

  lemma DropKeepsLive(g: Graph, hash: seq<HashNode>, pend: seq<nat>, i: nat, j: nat, consumed: Option<nat>, hash': seq<HashNode>, t: nat)
    requires g.InRange() && |hash| == |pend| == |g.tensors| && i < |g.nodes| && j <= |g.tensors[g.nodes[i]].src|
    requires LiveMid(g, hash, pend, i, j, consumed) && Ahead(g, hash, i + 1) && DropEffect(hash, hash', t)
    requires Finished(g, pend, t) || hash' == hash
    requires forall m :: i + 1 <= m < |g.nodes| ==> g.nodes[m] != t
    ensures LiveMid(g, hash', pend, i, j, consumed) && Ahead(g, hash', i + 1)
  {
  }

  lemma DropKeepsBuffers(g: Graph, hash: seq<HashNode>, heaps: Heaps, i: nat, hash': seq<HashNode>, heaps': Heaps, t: nat)
    requires |hash| == |g.tensors| && i < |g.nodes| && InBuffers(g, hash, heaps, i + 1)
    requires Grew(heaps, heaps') && DropEffect(hash, hash', t)
    ensures |hash'| == |hash| && InBuffers(g, hash', heaps', i + 1) && SameAddrs(g, hash, hash', i + 1)
  {
    forall u | 0 <= u < |hash'| && Placed(g, u, i + 1) ensures Below(g, hash'[u].addr, heaps', u) {
      assert Below(g, hash[u].addr, heaps, u);
    }
  }

  lemma DropKeepsCounts(g: Graph, hash: seq<HashNode>, total: seq<nat>, pend: seq<nat>, hash': seq<HashNode>, t: nat)
    requires g.InRange() && Counted(g, hash, total, pend) && DropEffect(hash, hash', t)
    ensures Counted(g, hash', total, pend)
  {
  }

  /** The records when one reference to `s` is gone. */
  function Uncounted(hash: seq<HashNode>, s: nat): seq<HashNode>
    requires s < |hash|
  {
    hash[s := hash[s].(nChildren := hash[s].nChildren - 1)]
  }

  function ViewClosed(hash: seq<HashNode>, r: nat): seq<HashNode>
    requires r < |hash|
  {
    hash[r := hash[r].(nViews := hash[r].nViews - 1)]
  }

  lemma PendSourcePositive(g: Graph, pend: seq<nat>, total: seq<nat>, i: nat, j: nat)
    requires g.WellFormed() && i < |g.nodes| && j < |g.tensors[g.nodes[i]].src| && PendsAt(g, pend, total, i, j)
    ensures var s := g.tensors[g.nodes[i]].src[j];
            pend[s] > 0 && PendsAt(g, pend[s := pend[s] - 1], total, i, j + 1)
  {
  }

  lemma CountOne(g: Graph, hash: seq<HashNode>, total: seq<nat>, pend: seq<nat>, i: nat, j: nat)
    requires g.WellFormed() && i < |g.nodes| && j < |g.tensors[g.nodes[i]].src| && PendsAt(g, pend, total, i, j)
    requires Counted(g, hash, total, pend)
    ensures var s := g.tensors[g.nodes[i]].src[j]; var pend' := pend[s := pend[s] - 1]; var h := Uncounted(hash, s);
            && pend[s] > 0
            && (g.IsView(s) ==> h[s].nViews == 0 && g.Root(s) != s)
            && (if g.IsView(s) && pend[s] == 1 then Counted(g, ViewClosed(h, g.Root(s)), total, pend')
                else Counted(g, h, total, pend'))
  {
    var s := g.tensors[g.nodes[i]].src[j];
    var r := g.Root(s);
    PendSourcePositive(g, pend, total, i, j);
    if g.IsView(s) {
      ReadViewHasOp(g, i, j);
      var k :| 0 <= k < i && g.nodes[k] == s;
      assert g.NodeOk(k);
      ViewsHaveNoViews(g, total, pend, s, |g.nodes|);
      if pend[s] == 1 { OpenViewsLess(g, total, pend, s, k, |g.nodes|); }
    }
    forall u | 0 <= u < |hash| && !(g.IsView(s) && pend[s] == 1 && u == r)
      ensures OpenViews(g, total, pend[s := pend[s] - 1], u, |g.nodes|) == OpenViews(g, total, pend, u, |g.nodes|)
    {
      OpenViewsSame(g, total, pend, s, pend[s] - 1, u, |g.nodes|);
    }
  }

  /** Counters move, ownership does not: liveness carries over to the next source. */
  lemma CountKeepsLive(g: Graph, hash: seq<HashNode>, hash': seq<HashNode>, total: seq<nat>, pend: seq<nat>,
                       i: nat, j: nat, consumed: Option<nat>)
    requires g.WellFormed() && i < |g.nodes| && j < |g.tensors[g.nodes[i]].src| && PendsAt(g, pend, total, i, j)
    requires |hash| == |hash'| == |g.tensors| && LiveMid(g, hash, pend, i, j, consumed)
    requires forall t :: 0 <= t < |hash| ==> hash'[t].owned == hash[t].owned
    ensures var s := g.tensors[g.nodes[i]].src[j]; pend[s] > 0 && LiveMid(g, hash', pend[s := pend[s] - 1], i, j + 1, consumed)
  {
    var s := g.tensors[g.nodes[i]].src[j];
    PendSourcePositive(g, pend, total, i, j);
    var pend' := pend[s := pend[s] - 1];
    forall t | 0 <= t < |hash'| && Placed(g, t, i + 1)
      ensures hash'[t].owned || Finished(g, pend', t) || (consumed == Some(t) && LastRead(g, pend', i, j + 1, t))
    {
      if Finished(g, pend, t) {
        ViewsDoneStays(g, pend, s, t);
      } else if !hash[t].owned {
        ViewsDoneStays(g, pend, s, t);
        assert RefsIn(g.tensors[g.nodes[i]].src, t, j) == (if s == t then 1 else 0) + RefsIn(g.tensors[g.nodes[i]].src, t, j + 1);
      }
    }
  }

  lemma ViewsDoneStays(g: Graph, pend: seq<nat>, s: nat, t: nat)
    requires g.InRange() && |pend| == |g.tensors| && s < |pend| && pend[s] > 0 && ViewsDone(g, pend, t)
    ensures ViewsDone(g, pend[s := pend[s] - 1], t)
  {
  }

  /** All of MidInv after the counters have moved past source `j`. */
  lemma CountKeepsMid(g: Graph, aligns: seq<nat>, hash: seq<HashNode>, heaps: Heaps, total: seq<nat>, pend: seq<nat>,
                      i: nat, j: nat, consumed: Option<nat>, hash': seq<HashNode>)
    requires MidInv(g, aligns, hash, heaps, total, pend, i, j, consumed) && j < |g.tensors[g.nodes[i]].src|
    requires var s := g.tensors[g.nodes[i]].src[j];
             hash' == if g.IsView(s) && pend[s] == 1 then ViewClosed(Uncounted(hash, s), g.Root(s)) else Uncounted(hash, s)
    ensures var s := g.tensors[g.nodes[i]].src[j];
            pend[s] > 0 && MidInv(g, aligns, hash', heaps, total, pend[s := pend[s] - 1], i, j + 1, consumed)
  {
    var s := g.tensors[g.nodes[i]].src[j];
    CountOne(g, hash, total, pend, i, j);
    PendSourcePositive(g, pend, total, i, j);
    OwnersKept(hash, s, g.Root(s));
    hide Plannable, MemoryInv, Counted, PendsAt, LiveMid, Ahead, SafeSoFar, GivensApart, InBuffers, Uncounted, ViewClosed;
    PlannableParts(g, aligns);
    CountKeepsLive(g, hash, hash', total, pend, i, j, consumed);
    OwnersKeepRest(g, hash, hash', heaps, i + 1);
    SafetyKept(g, hash, hash', i + 1);
    MemoryIgnoresCounters(g, aligns, hash, hash', heaps);
  }

  lemma OwnersKept(hash: seq<HashNode>, s: nat, r: nat)
    requires s < |hash| && r < |hash|
    ensures |Uncounted(hash, s)| == |ViewClosed(Uncounted(hash, s), r)| == |hash|
    ensures forall t :: 0 <= t < |hash| ==>
              var u, v := Uncounted(hash, s)[t], ViewClosed(Uncounted(hash, s), r)[t];
              u.owned == v.owned == hash[t].owned && u.addr == v.addr == hash[t].addr
  {
  }

  lemma OwnersKeepRest(g: Graph, hash: seq<HashNode>, hash': seq<HashNode>, heaps: Heaps, i: nat)
    requires g.InRange() && |hash| == |hash'| == |g.tensors| && i <= |g.nodes|
    requires forall t :: 0 <= t < |hash| ==> hash'[t].owned == hash[t].owned && hash'[t].addr == hash[t].addr
    requires Ahead(g, hash, i) && InBuffers(g, hash, heaps, i)
    ensures Ahead(g, hash', i) && InBuffers(g, hash', heaps, i) && SameAddrs(g, hash, hash', i)
  {
  }

  lemma MemoryIgnoresCounters(g: Graph, aligns: seq<nat>, hash: seq<HashNode>, hash': seq<HashNode>, heaps: Heaps)
    requires Sized(g, aligns) && MemoryInv(g, aligns, hash, heaps) && |hash'| == |hash|
    requires forall t :: 0 <= t < |hash| ==> hash'[t].owned == hash[t].owned && hash'[t].addr == hash[t].addr
    ensures MemoryInv(g, aligns, hash', heaps)
  {
  }

  lemma MidToNext(g: Graph, aligns: seq<nat>, hash: seq<HashNode>, heaps: Heaps, total: seq<nat>, pend: seq<nat>,
                  i: nat, consumed: Option<nat>)
    requires i < |g.nodes| && g.InRange()
    requires MidInv(g, aligns, hash, heaps, total, pend, i, |g.tensors[g.nodes[i]].src|, consumed) && Freed(g, hash, pend, None)
    ensures LoopInv(g, aligns, hash, heaps, total, pend, i + 1)
  {
    PendsNext(g, pend, total, i);
    LiveNext(g, hash, pend, i, consumed);
    hide Plannable, MemoryInv, Counted, PendsFrom, PendsAt, Live, LiveMid, Freed, Ahead, SafeSoFar, GivensApart, InBuffers;
  }

  lemma PendsNext(g: Graph, pend: seq<nat>, total: seq<nat>, i: nat)
    requires g.InRange() && i < |g.nodes| && PendsAt(g, pend, total, i, |g.tensors[g.nodes[i]].src|)
    ensures PendsFrom(g, pend, i + 1) && forall t :: 0 <= t < |pend| ==> pend[t] <= total[t]
  {
  }

  lemma LiveNext(g: Graph, hash: seq<HashNode>, pend: seq<nat>, i: nat, consumed: Option<nat>)
    requires g.InRange() && |hash| == |pend| == |g.tensors| && i < |g.nodes|
    requires LiveMid(g, hash, pend, i, |g.tensors[g.nodes[i]].src|, consumed)
    ensures Live(g, hash, pend, i + 1)
  {
  }

  // ---- nothing is kept longer than needed ----

  /** When the counters have moved past source `j`, only what they name can have become free. */
  lemma CountKeepsFreed(g: Graph, aligns: seq<nat>, hash: seq<HashNode>, heaps: Heaps, total: seq<nat>, pend: seq<nat>,
                        i: nat, j: nat, consumed: Option<nat>, hash': seq<HashNode>, dead: nat)
    requires MidInv(g, aligns, hash, heaps, total, pend, i, j, consumed) && Freed(g, hash, pend, None)
    requires j < |g.tensors[g.nodes[i]].src| && |hash'| == |hash|
    requires forall t :: 0 <= t < |hash| ==> hash'[t].owned == hash[t].owned
    requires var s := g.tensors[g.nodes[i]].src[j];
             pend[s] > 0 && (g.IsView(s) && pend[s] == 1 ==> dead == g.Root(s)) && (!g.IsView(s) ==> dead == s)
    ensures var s := g.tensors[g.nodes[i]].src[j]; Freed(g, hash', pend[s := pend[s] - 1], Some(dead))
  {
    var s := g.tensors[g.nodes[i]].src[j];
    hide Plannable, Counted, PendsAt, LiveMid, Ahead, SafeSoFar, GivensApart, InBuffers, Finished;
    PlannableParts(g, aligns);
    forall t | 0 <= t < |hash'| && hash'[t].owned && Finished(g, pend[s := pend[s] - 1], t) ensures t == dead {
      assert !Finished(g, pend, t);
      FinishedNow(g, pend, s, t);
    }
  }

  /** A tensor whose counters are not zero, or that is not owned, is not late. */
  lemma NothingLate(g: Graph, hash: seq<HashNode>, total: seq<nat>, pend: seq<nat>, dead: nat)
    requires g.InRange() && Counted(g, hash, total, pend) && dead < |hash| && Freed(g, hash, pend, Some(dead))
    ensures !(hash[dead].nChildren == 0 && hash[dead].nViews == 0 && hash[dead].owned) ==> Freed(g, hash, pend, None)
  {
    if Finished(g, pend, dead) { FinishedCounts(g, hash, total, pend, dead); }
  }

  lemma MidNothingLate(g: Graph, aligns: seq<nat>, hash: seq<HashNode>, heaps: Heaps, total: seq<nat>, pend: seq<nat>,
                       i: nat, j: nat, consumed: Option<nat>, dead: nat)
    requires MidInv(g, aligns, hash, heaps, total, pend, i, j, consumed)
    requires g.InRange() && |hash| == |pend| == |g.tensors| && dead < |hash| && Freed(g, hash, pend, Some(dead))
    ensures !(hash[dead].nChildren == 0 && hash[dead].nViews == 0 && hash[dead].owned) ==> Freed(g, hash, pend, None)
  {
    NothingLate(g, hash, total, pend, dead);
  }

  lemma DeadIsFinished(g: Graph, aligns: seq<nat>, hash: seq<HashNode>, heaps: Heaps, total: seq<nat>, pend: seq<nat>,
                       i: nat, j: nat, consumed: Option<nat>, dead: nat)
    requires MidInv(g, aligns, hash, heaps, total, pend, i, j + 1, consumed) && dead < |hash|
    requires j < |g.tensors[g.nodes[i]].src| && dead in {g.tensors[g.nodes[i]].src[j], g.Root(g.tensors[g.nodes[i]].src[j])}
    requires hash[dead].nChildren == 0 && hash[dead].nViews == 0 && hash[dead].owned
    ensures g.tensors[dead].output || Finished(g, pend, dead)
  {
    OwnedIsRoot(g, aligns, hash, heaps, dead);
    assert g.ReadsRoot(i, dead);
    ZeroCountsMeanDone(g, hash, total, pend, dead);
  }

  lemma DropKeepsFreed(g: Graph, hash: seq<HashNode>, pend: seq<nat>, hash': seq<HashNode>, t: nat)
    requires g.InRange() && |hash| == |pend| == |g.tensors| && Freed(g, hash, pend, Some(t)) && DropEffect(hash, hash', t)
    requires g.tensors[t].output || !hash'[t].owned
    ensures Freed(g, hash', pend, None)
  {
  }

  /** At the end a tensor still owns its range exactly when it is there to stay. */
  lemma OwnedAtEnd(g: Graph, aligns: seq<nat>, hash: seq<HashNode>, heaps: Heaps, total: seq<nat>, pend: seq<nat>)
    requires LoopInv(g, aligns, hash, heaps, total, pend, |g.nodes|)
    ensures forall t :: 0 <= t < |hash| && (t in g.leafs || t in g.nodes) && g.Managed(t) ==> (hash[t].owned <==> g.Keeps(t))
  {
    assert g.nodes[..|g.nodes|] == g.nodes;
    forall t | 0 <= t < |hash| && (t in g.leafs || t in g.nodes) && g.Managed(t) ensures hash[t].owned <==> g.Keeps(t) {
      if t in g.leafs { LeafGiven(g, t); }
      assert Placed(g, t, |g.nodes|);
      NothingPends(g, pend, t);
    }
  }

  lemma NothingPends(g: Graph, pend: seq<nat>, t: nat)
    requires g.InRange() && PendsFrom(g, pend, |g.nodes|) && t < |g.tensors|
    ensures Finished(g, pend, t) <==> !g.Keeps(t)
  {
  }

  // ---- before the main loop ----

  /** So far only given tensors own memory: the first `k` leafs and the inputs among the first
      `i` nodes do. */
  ghost predicate SetUp(g: Graph, hash: seq<HashNode>, k: nat, i: nat)
    requires g.InRange() && |hash| == |g.tensors| && k <= |g.leafs| && i <= |g.nodes|
  {
    && (forall t :: 0 <= t < |hash| && hash[t].owned ==> g.Given(t))
    && (forall m :: 0 <= m < k && g.Managed(g.leafs[m]) ==> hash[g.leafs[m]].owned)
    && (forall m :: 0 <= m < i && g.Managed(g.nodes[m]) && g.tensors[g.nodes[m]].op.NoOp? ==> hash[g.nodes[m]].owned)
  }

  lemma NothingPlaced(g: Graph, aligns: seq<nat>, hash: seq<HashNode>, heaps: Heaps)
    requires Plannable(g, aligns) && |heaps| == |aligns| && |hash| == |g.tensors|
    requires forall t :: 0 <= t < |hash| ==> hash[t] == BLANK
    ensures MemoryInv(g, aligns, hash, heaps) && g.InRange() && SetUp(g, hash, 0, 0)
  {
  }

  lemma LeafPlaceable(g: Graph, aligns: seq<nat>, k: nat)
    requires Plannable(g, aligns) && k < |g.leafs|
    ensures g.leafs[k] < |g.tensors| && g.Given(g.leafs[k])
  {
    LeafGiven(g, g.leafs[k]);
  }

  lemma SetUpLeaf(g: Graph, hash: seq<HashNode>, k: nat)
    requires g.InRange() && |hash| == |g.tensors| && k < |g.leafs| && SetUp(g, hash, k, 0)
    requires g.Managed(g.leafs[k]) ==> hash[g.leafs[k]].owned
    ensures SetUp(g, hash, k + 1, 0)
  {
  }

  ghost predicate CountsTo(g: Graph, hash: seq<HashNode>, total: seq<nat>, i: nat)
    requires g.InRange() && i <= |g.nodes|
  {
    && |hash| == |total| == |g.tensors|
    && forall t :: 0 <= t < |hash| ==>
         hash[t].nChildren == total[t] - RefsFrom(g, t, i) && hash[t].nViews == OpenViews(g, total, total, t, i)
  }

  ghost predicate CountsIn(g: Graph, hash: seq<HashNode>, total: seq<nat>, i: nat, j: nat)
    requires g.InRange() && i < |g.nodes| && j <= |g.tensors[g.nodes[i]].src|
  {
    && |hash| == |total| == |g.tensors|
    && forall t :: 0 <= t < |hash| ==>
         hash[t].nChildren == total[t] - Pending(g, t, i, j) && hash[t].nViews == OpenViews(g, total, total, t, i + 1)
  }

  lemma CountsDone(g: Graph, hash: seq<HashNode>, total: seq<nat>, i: nat)
    requires g.InRange() && i < |g.nodes| && CountsIn(g, hash, total, i, |g.tensors[g.nodes[i]].src|)
    ensures CountsTo(g, hash, total, i + 1)
  {
  }

  /** Placing a given tensor only marks it. */
  lemma CountsKept(g: Graph, hash: seq<HashNode>, hash': seq<HashNode>, total: seq<nat>, i: nat, j: nat)
    requires g.InRange() && i < |g.nodes| && j <= |g.tensors[g.nodes[i]].src| && CountsIn(g, hash, total, i, j)
    requires |hash'| == |hash|
    requires forall u :: 0 <= u < |hash| ==> hash'[u].nChildren == hash[u].nChildren && hash'[u].nViews == hash[u].nViews
    ensures CountsIn(g, hash', total, i, j)
  {
  }

  lemma PlaceGiven(g: Graph, hash: seq<HashNode>, hash': seq<HashNode>, t: nat, consumed: Option<nat>, k: nat, i: nat)
    requires g.InRange() && |hash| == |hash'| == |g.tensors| && t < |hash| && k <= |g.leafs| && i <= |g.nodes|
    requires PlaceEffect(g, hash, hash', t, consumed) && g.Given(t) && SetUp(g, hash, k, i)
    ensures SetUp(g, hash', k, i) && (g.Managed(t) ==> hash'[t].owned)
    ensures forall u :: 0 <= u < |hash| ==> hash'[u].nChildren == hash[u].nChildren && hash'[u].nViews == hash[u].nViews
  {
  }

  lemma InputGiven(g: Graph, t: nat)
    requires g.WellFormed() && t < |g.tensors| && (t in g.leafs || t in g.nodes) && g.tensors[t].input
    ensures g.Given(t)
  {
    if t in g.leafs {
      LeafGiven(g, t);
    } else {
      var i :| 0 <= i < |g.nodes| && g.nodes[i] == t;
      assert g.NodeOk(i);
    }
  }

  lemma NothingCounted(g: Graph, hash: seq<HashNode>)
    requires g.InRange() && |hash| == |g.tensors| && forall t :: 0 <= t < |hash| ==> hash[t].nChildren == 0 && hash[t].nViews == 0
    ensures CountsTo(g, hash, Totals(g), 0)
  {
  }

  lemma EndIsSafe(g: Graph, aligns: seq<nat>, hash: seq<HashNode>, heaps: Heaps, total: seq<nat>, pend: seq<nat>)
    requires LoopInv(g, aligns, hash, heaps, total, pend, |g.nodes|)
    ensures g.InRange() && |hash| == |g.tensors| && SafePlan(g, PlanOf(g, hash)) && InBuffers(g, hash, heaps, |g.nodes|)
  {
    hide SafePlan, InBuffers, SafeSoFar, GivensApart, Counted, PendsFrom, Live, Freed, Ahead;
    RecordsAreSafe(g, aligns, hash, heaps);
  }

  lemma SetUpStarts(g: Graph, aligns: seq<nat>, hash: seq<HashNode>, heaps: Heaps, total: seq<nat>)
    requires Plannable(g, aligns) && MemoryInv(g, aligns, hash, heaps) && total == Totals(g)
    requires SetUp(g, hash, |g.leafs|, |g.nodes|) && CountsTo(g, hash, total, |g.nodes|)
    ensures LoopInv(g, aligns, hash, heaps, total, total, 0)
  {
    PlannableParts(g, aligns);
    CountsStart(g, hash, total);
    FreedAtStart(g, hash, total);
    SetUpOwned(g, hash);
    SetUpApart(g, aligns, hash, heaps);
    hide Plannable, MemoryInv, Counted, PendsFrom, Freed, GivensApart, ApartRec, Below, SourceRec;
  }

  lemma CountsStart(g: Graph, hash: seq<HashNode>, total: seq<nat>)
    requires g.InRange() && CountsTo(g, hash, total, |g.nodes|) && total == Totals(g)
    ensures Counted(g, hash, total, total) && PendsFrom(g, total, 0)
  {
  }

  lemma SetUpOwned(g: Graph, hash: seq<HashNode>)
    requires g.WellFormed() && |hash| == |g.tensors| && SetUp(g, hash, |g.leafs|, |g.nodes|)
    ensures forall t :: 0 <= t < |hash| && g.Given(t) && g.Managed(t) ==> hash[t].owned
  {
    forall t | 0 <= t < |hash| && g.Given(t) && g.Managed(t) ensures hash[t].owned {
      if t in g.leafs {
        var m :| 0 <= m < |g.leafs| && g.leafs[m] == t;
      } else {
        var m :| 0 <= m < |g.nodes| && g.nodes[m] == t;
      }
    }
  }

  lemma SetUpApart(g: Graph, aligns: seq<nat>, hash: seq<HashNode>, heaps: Heaps)
    requires g.WellFormed() && Sized(g, aligns) && MemoryInv(g, aligns, hash, heaps)
    requires forall t :: 0 <= t < |hash| && g.Given(t) && g.Managed(t) ==> hash[t].owned
    ensures GivensApart(g, hash) && InBuffers(g, hash, heaps, 0)
  {
    forall t | 0 <= t < |hash| && Placed(g, t, 0) ensures Below(g, hash[t].addr, heaps, t) {
      HeldBelow(g, aligns, hash, heaps, t);
    }
    forall t, u | 0 <= t < |hash| && 0 <= u < |hash| && BothGiven(g, t, u) ensures ApartRec(g, hash, t, u) {
      NoClashApart(g, aligns, hash, heaps, t, u);
    }
  }

  lemma GrewNot(heaps: Heaps)
    ensures Grew(heaps, heaps)
  {
  }

  lemma GrewAt(heaps: Heaps, b: nat, st: seq<ChunkState>)
    requires b < |heaps| && ChunksGrew(heaps[b], st)
    ensures Grew(heaps, heaps[b := st])
  {
  }

  lemma SlotsGone(g: Graph, aligns: seq<nat>, heaps: Heaps, heaps': Heaps, b: nat, c: nat)
    requires Sized(g, aligns) && Grew(heaps, heaps') && b < |heaps| && c < |heaps[b]|
    requires b < |heaps'| && c < |heaps'[b]| ==> |heaps'[b][c].blocks| == MAX_FREE_BLOCKS
    ensures Explains(g, aligns, heaps', OutOfSlots(b, c))
  {
    assert ChunksGrew(heaps[b], heaps'[b]);
  }

  lemma GrewTransitive(h0: Heaps, h1: Heaps, h2: Heaps)
    requires Grew(h0, h1) && Grew(h1, h2)
    ensures Grew(h0, h2)
  {
    forall b | 0 <= b < |h0| ensures ChunksGrew(h0[b], h2[b]) {
      assert ChunksGrew(h0[b], h1[b]) && ChunksGrew(h1[b], h2[b]);
    }
  }

  lemma SameRecordsKeepLoop(g: Graph, aligns: seq<nat>, hash: seq<HashNode>, heaps: Heaps, heaps': Heaps,
                            total: seq<nat>, pend: seq<nat>, i: nat)
    requires LoopInv(g, aligns, hash, heaps, total, pend, i) && MemoryInv(g, aligns, hash, heaps') && Grew(heaps, heaps')
    ensures LoopInv(g, aligns, hash, heaps', total, pend, i)
  {
    forall t | 0 <= t < |hash| && Placed(g, t, i) ensures Below(g, hash[t].addr, heaps', t) {
      assert Below(g, hash[t].addr, heaps, t);
    }
  }

  /** A managed source of node `i` owns its memory when node `i` is reached. */
  lemma SourceOwned(g: Graph, aligns: seq<nat>, hash: seq<HashNode>, heaps: Heaps, total: seq<nat>, pend: seq<nat>, i: nat, j: nat)
    requires LoopInv(g, aligns, hash, heaps, total, pend, i) && i < |g.nodes| && j < |g.tensors[g.nodes[i]].src|
    ensures var s := g.tensors[g.nodes[i]].src[j]; g.Managed(s) ==> hash[s].owned
  {
    var s := g.tensors[g.nodes[i]].src[j];
    assert g.SourceOk(i, j);
    EarlierPresent(g, s, i);
    RefsInPositive(g.tensors[g.nodes[i]].src, s, 0, j);
    if g.Managed(s) {
      assert Placed(g, s, i);
    }
  }

  lemma ViewsOneMore(g: Graph, total: seq<nat>, i: nat)
    requires g.WellFormed() && i < |g.nodes| && |total| == |g.tensors|
    ensures forall t :: 0 <= t < |total| ==>
              OpenViews(g, total, total, t, i + 1) ==
              OpenViews(g, total, total, t, i) + if ViewNode(g, i, t) then 1 else 0
  {
  }

  /** Node `i` is set up once it is placed, or when it is no input. */
  lemma SetUpNext(g: Graph, hash: seq<HashNode>, i: nat)
    requires g.WellFormed() && |hash| == |g.tensors| && i < |g.nodes| && SetUp(g, hash, |g.leafs|, i)
    requires g.tensors[g.nodes[i]].input && g.Managed(g.nodes[i]) ==> hash[g.nodes[i]].owned
    ensures SetUp(g, hash, |g.leafs|, i + 1)
  {
    assert g.NodeOk(i);
  }

  lemma CountedSource(g: Graph, hash: seq<HashNode>, hash': seq<HashNode>, total: seq<nat>, i: nat, j: nat)
    requires g.InRange() && i < |g.nodes| && j < |g.tensors[g.nodes[i]].src| && CountsIn(g, hash, total, i, j)
    requires var s := g.tensors[g.nodes[i]].src[j]; hash' == hash[s := hash[s].(nChildren := hash[s].nChildren + 1)]
    ensures CountsIn(g, hash', total, i, j + 1)
  {
  }
}
