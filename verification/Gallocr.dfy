/** The graph planner: it walks the graph once, counting references, and gives every tensor an
    address in some chunk of some buffer, reusing memory as soon as nothing needs it. */
module Gallocr {
  import opened Wrappers
  import opened Arith
  import opened FreeBlocks
  import opened AllocRuns
  import opened Tallocr
  import opened GraphPlan
  import opened PlannerMemory
  import opened PlannerCounts
  import opened PlannerSafety
  import opened PlannerSpec
  import opened Reserve

  ghost function AllRepr(ts: seq<DynTallocr>, n: nat): (r: set<object>)
    requires n <= |ts|
    reads ts
    ensures forall b :: 0 <= b < n ==> ts[b] in r && ts[b].Repr <= r
  {
    if n == 0 then {} else AllRepr(ts, n - 1) + {ts[n - 1]} + ts[n - 1].Repr
  }

  ghost function Aligns(ts: seq<DynTallocr>): (r: seq<nat>)
    ensures |r| == |ts| && forall b :: 0 <= b < |ts| ==> r[b] == ts[b].alignment
  {
    if ts == [] then [] else [ts[0].alignment] + Aligns(ts[1..])
  }

  ghost function Maxes(ts: seq<DynTallocr>): (r: seq<nat>)
    ensures |r| == |ts| && forall b :: 0 <= b < |ts| ==> r[b] == ts[b].maxChunkSize
  {
    if ts == [] then [] else [ts[0].maxChunkSize] + Maxes(ts[1..])
  }

  ghost function States(ts: seq<DynTallocr>): (r: Heaps)
    reads ts
    ensures |r| == |ts| && forall b :: 0 <= b < |ts| ==> r[b] == ts[b].st
  {
    if ts == [] then [] else [ts[0].st] + States(ts[1..])
  }

  class Gallocr {
    const tallocs: seq<DynTallocr>  // one per buffer type
    var hash: seq<HashNode>
    var nodeAllocs: seq<NodeAlloc>
    var nLeafs: nat
    ghost const aligns: seq<nat>
    ghost const maxes: seq<nat>
    ghost var heaps: Heaps
    ghost var why: Reason  // why the planner gave up
    ghost var Repr: set<object>

    ghost predicate Valid()
      reads this, Repr
    {
      && this in Repr && |heaps| == |aligns| == |maxes| == |tallocs|
      && (forall b :: 0 <= b < |tallocs| ==>
            && tallocs[b] in Repr && tallocs[b].Repr <= Repr && this !in tallocs[b].Repr
            && tallocs[b].Valid() && tallocs[b].st == heaps[b] && tallocs[b].alignment == aligns[b]
            && tallocs[b].maxChunkSize == maxes[b])
      && (forall b, c :: 0 <= b < c < |tallocs| ==> tallocs[b].Repr !! tallocs[c].Repr)
    }

    constructor (ts: seq<DynTallocr>)
      requires forall b :: 0 <= b < |ts| ==> ts[b].Valid()
      requires forall b, c :: 0 <= b < c < |ts| ==> ts[b].Repr !! ts[c].Repr
      ensures Valid() && tallocs == ts && hash == []
      ensures forall b :: 0 <= b < |ts| ==> aligns[b] == ts[b].alignment && maxes[b] == ts[b].maxChunkSize && heaps[b] == ts[b].st
    {
      hide DynTallocr.Valid, AllRepr, Aligns, Maxes, States;
      tallocs := ts;
      hash := [];
      nodeAllocs, nLeafs := [], 0;
      aligns, maxes := Aligns(ts), Maxes(ts);
      heaps := States(ts);
      why := NoReason;
      Repr := {this} + AllRepr(ts, |ts|);
    }

    ghost function On(g: Graph): Job {
      Job(g, aligns, maxes)
    }

    ghost function Now(): State
      reads this
    {
      State(hash, heaps)
    }

    /** Take `request` bytes from buffer `b`. */
    method AllocIn(b: nat, request: nat) returns (ok: bool, c: nat, offset: nat)
      requires Valid() && b < |tallocs| && 0 < request && AlignUp(request, aligns[b]) <= SIZE_MAX / 2
      modifies Repr
      ensures Valid() && fresh(Repr - old(Repr)) && hash == old(hash)
      ensures heaps == old(heaps)[b := heaps[b]] && Grew(old(heaps), heaps)
      ensures !ok ==> Full(heaps[b], AlignUp(request, aligns[b]))
      ensures ok ==> TakesRange(old(heaps)[b], heaps[b], c, offset, AlignUp(request, aligns[b])) && offset % aligns[b] == 0
      ensures Allocated(old(heaps)[b], maxes[b], AlignUp(request, aligns[b])) ==
              if ok then Some(Grant(c, offset, heaps[b])) else None
    {
      hide TakesRange, Full, AlignUp, ChunksGrew, Grew, ValidChunks, AllocStep, Allocated, Grown;
      var talloc := tallocs[b];
      ghost var was := talloc.st;
      ok, c, offset := talloc.Alloc(request);
      AllocEffect(was, talloc.st, maxes[b], AlignUp(request, aligns[b]), aligns[b], ok, c, offset);
      assert forall d :: 0 <= d < |tallocs| && d != b ==> tallocs[d].Valid() && tallocs[d].Repr !! talloc.Repr;
      GrewAt(heaps, b, talloc.st);
      heaps := heaps[b := talloc.st];
      Repr := Repr + talloc.Repr;
    }

    /** Give `request` bytes back to buffer `b`. */
    method FreeIn(b: nat, c: nat, offset: nat, request: nat) returns (ok: bool)
      requires Valid() && b < |tallocs| && 0 < request && c < |heaps[b]| && offset % aligns[b] == 0
      requires offset + AlignUp(request, aligns[b]) <= heaps[b][c].extent
      requires Taken(heaps[b][c], offset, AlignUp(request, aligns[b]))
      modifies Repr
      ensures Valid() && fresh(Repr - old(Repr)) && hash == old(hash)
      ensures heaps == old(heaps)[b := heaps[b]] && Grew(old(heaps), heaps)
      ensures !ok ==> |heaps[b][c].blocks| == MAX_FREE_BLOCKS
      ensures ok ==> GivesRange(old(heaps)[b], heaps[b], c, offset, AlignUp(request, aligns[b]))
      ensures Released(old(heaps), Addr(b, c, offset), AlignUp(request, aligns[b])) == if ok then Some(heaps) else None
    {
      var talloc := tallocs[b];
      ok := talloc.Free(c, offset, request);
      heaps := heaps[b := talloc.st];
    }

    lemma NowSuits(g: Graph)
      requires Valid() && Plannable(g, aligns) && |hash| == |g.tensors|
      ensures g.InRange() && Suits(On(g), Now()) && |tallocs| == |aligns| == |heaps|
    {
    }

    lemma LoopSuits(g: Graph, total: seq<nat>, pend: seq<nat>, i: nat)
      requires Valid() && LoopInv(g, aligns, hash, heaps, total, pend, i)
      ensures g.InRange() && i <= |g.nodes| && |hash| == |g.tensors| && Ready(g)
      ensures Suits(On(g), Now()) && |tallocs| == |aligns| == |heaps|
    {
    }

    lemma MidSuits(g: Graph, total: seq<nat>, pend: seq<nat>, i: nat, j: nat, consumed: Option<nat>)
      requires Valid() && MidInv(g, aligns, hash, heaps, total, pend, i, j, consumed)
      ensures this in Repr && g.InRange() && i < |g.nodes| && j <= |g.tensors[g.nodes[i]].src|
      ensures |hash| == |pend| == |g.tensors| && Ready(g)
      ensures Suits(On(g), Now()) && |tallocs| == |aligns| == |heaps|
    {
    }

    lemma NowRouted(g: Graph, ids: Option<seq<nat>>, n: nat)
      requires |tallocs| == |aligns| > 0 && BufferIds(ids, n, |tallocs|)
      ensures Routed(On(g), ids, n)
    {
    }

    lemma ReadyMemory(g: Graph)
      requires Ready(g)
      ensures Sized(g, aligns) && MemoryInv(g, aligns, hash, heaps)
    {
    }

    lemma ReadySuits(g: Graph)
      requires Ready(g)
      ensures Valid() && g.InRange() && |hash| == |g.tensors| && Suits(On(g), Now()) && |tallocs| == |aligns| == |heaps|
    {
    }

    ghost predicate Ready(g: Graph)
      reads this, Repr
    {
      Valid() && Plannable(g, aligns) && MemoryInv(g, aligns, hash, heaps)
    }

    /** Free the space a smaller node leaves over of the parent it reuses.  The node's size is
        not rounded here. */
    method FreeExtraSpace(g: Graph, node: nat, parent: nat, a: Addr) returns (ok: bool)
      requires Valid() && Plannable(g, aligns) && node < |g.tensors| && parent < |g.tensors|
      requires ShrinkOk(g, aligns, node, parent) && Holds(g, aligns, heaps, parent, a)
      modifies Repr
      ensures Valid() && fresh(Repr - old(Repr)) && hash == old(hash) && Grew(old(heaps), heaps)
      ensures ok ==> ReuseHeaps(g, aligns, old(heaps), heaps, node, parent, a)
      ensures !ok ==> Explains(g, aligns, heaps, why) || g.tensors[parent].sizes[a.buffer] < g.tensors[node].sizes[a.buffer]
      ensures TailReleased(On(g), old(heaps), node, parent, a) == if ok then Some(heaps) else None
    {
      var parentSize := g.tensors[parent].sizes[a.buffer];
      var nodeSize := g.tensors[node].sizes[a.buffer];
      ok := parentSize >= nodeSize;
      if parentSize > nodeSize {
        TailIsTaken(g, aligns, heaps, node, parent, a);
        ok := FreeIn(a.buffer, a.chunk, a.offset + nodeSize, parentSize - nodeSize);
        why := OutOfSlots(a.buffer, a.chunk);
      }
    }

    /** Give tensor `t` an address unless it needs none: take over a parent that dies here, or
        allocate. */
    method AllocateNode(g: Graph, t: nat, buffer: nat) returns (ok: bool, ghost consumed: Option<nat>)
      requires Ready(g) && t < |g.tensors| && buffer < |tallocs|
      modifies Repr
      ensures Valid() && fresh(Repr - old(Repr)) && Grew(old(heaps), heaps)
      ensures ok ==> Ready(g) && PlaceEffect(g, old(hash), hash, t, consumed)
      ensures ok && g.Managed(t) && !old(hash[t].owned) && g.tensors[t].op.Op? && g.tensors[t].op.inplace ==>
                TakesOver(g, old(hash), t, consumed)
      ensures !ok ==> Explains(g, aligns, heaps, why)
      ensures Placing(On(g), old(Now()), t, buffer) == if ok then Some(Now()) else None
    {
      hide Plannable, MemoryInv, Fresh, Reused, FirstReusable, TakesOver, Grew, Explains;
      ReadySuits(g);
      GrewNot(heaps);
      consumed := None;
      if hash[t].owned || g.tensors[t].external || g.IsView(t) {
        return true, None;
      }
      if g.tensors[t].op.Op? && g.tensors[t].op.inplace {
        var found, p := FindReusable(g, t);
        if found {
          ok := Reuse(g, t, p);
          return ok, Some(p);
        }
      }
      ok := AllocateFresh(g, t, buffer);
    }

    /** The first source that can be taken over. */
    method FindReusable(g: Graph, t: nat) returns (found: bool, p: nat)
      requires Ready(g) && t < |g.tensors| && !hash[t].owned
      ensures found ==> p < |hash| && p in g.tensors[t].src && Reusable(g, hash, t, p)
      ensures TakesOver(g, hash, t, if found then Some(p) else None)
      ensures FirstReusable(g, hash, t, 0) == if found then Some(p) else None
    {
      var i := 0;
      while i < |g.tensors[t].src|
        invariant i <= |g.tensors[t].src|
        invariant forall k :: 0 <= k < i ==> !Reusable(g, hash, t, g.tensors[t].src[k])
      {
        p := g.tensors[t].src[i];
        if Reusable(g, hash, t, p) {
          // a managed tensor is no view, so the source's branch for view parents is dead
          assert !g.IsView(p);
          TakesFirst(g, hash, t, Some(p), 0);
          return true, p;
        }
        i := i + 1;
      }
      TakesFirst(g, hash, t, None, 0);
      return false, 0;
    }

    method Reuse(g: Graph, t: nat, p: nat) returns (ok: bool)
      requires Ready(g) && t < |g.tensors| && g.Managed(t) && !hash[t].owned
      requires g.tensors[t].op.Op? && g.tensors[t].op.inplace
      requires p < |hash| && p in g.tensors[t].src && Reusable(g, hash, t, p)
      modifies Repr
      ensures Valid() && fresh(Repr - old(Repr)) && Grew(old(heaps), heaps)
      ensures ok ==> Ready(g) && PlaceEffect(g, old(hash), hash, t, Some(p))
      ensures !ok ==> Explains(g, aligns, heaps, why)
      ensures Reused(On(g), old(Now()), t, p) == if ok then Some(Now()) else None
    {
      hide Plannable, MemoryInv, ShrinkOk, ReuseHeaps, Grew, PlaceEffect, TailReleased, Suits;
      ghost var was, before := hash, heaps;
      ReadySuits(g);
      ReadyMemory(g);
      var a := hash[p].addr;
      ReuseFits(g, aligns, hash, heaps, t, p);
      ok := FreeExtraSpace(g, t, p, a);
      HandOver(p, t);
      ReuseEffect(g, was, hash, t, p);
      if ok {
        ReuseKeepsMemory(g, aligns, was, before, heaps, t, p);
      } else if g.tensors[p].sizes[a.buffer] < g.tensors[t].sizes[a.buffer] {
        why := WouldGrow(t, p, a.buffer);
      }
    }

    /** The parent's record passes its address on. */
    method HandOver(p: nat, t: nat)
      requires Valid() && p < |hash| && t < |hash| && p != t
      modifies this`hash
      ensures Valid()
      ensures hash == HandedOver(old(hash), p, t)
    {
      hash := hash[p := hash[p].(owned := false)];
      hash := hash[t := hash[t].(addr := hash[p].addr, owned := true)];
    }

    method AllocateFresh(g: Graph, t: nat, buffer: nat) returns (ok: bool)
      requires Ready(g) && t < |g.tensors| && g.Managed(t) && !hash[t].owned && buffer < |tallocs|
      modifies Repr
      ensures Valid() && fresh(Repr - old(Repr)) && Grew(old(heaps), heaps)
      ensures ok ==> Ready(g) && PlaceEffect(g, old(hash), hash, t, None)
      ensures !ok ==> Explains(g, aligns, heaps, why)
      ensures Fresh(On(g), old(Now()), t, buffer) == if ok then Some(Now()) else None
    {
      hide Plannable, MemoryInv, TakesRange, Full, AlignUp, Allocated, Grew;
      ghost var was, before := hash, heaps;
      ReadyMemory(g);
      FreshFits(g, aligns, t, buffer);
      var c, offset;
      ok, c, offset := AllocIn(buffer, g.tensors[t].sizes[buffer]);
      if ok {
        var a := Addr(buffer, c, offset);
        hash := hash[t := hash[t].(addr := a, owned := true)];
        FreshKeepsMemory(g, aligns, was, before, heaps[buffer], t, a);
      } else {
        why := OutOfChunks(t, buffer);
      }
    }

    /** Outputs are never freed. */
    method FreeNode(g: Graph, t: nat) returns (ok: bool)
      requires Ready(g) && t < |g.tensors| && hash[t].owned
      modifies Repr
      ensures Valid() && fresh(Repr - old(Repr)) && Grew(old(heaps), heaps)
      ensures ok ==> Ready(g) && DropEffect(old(hash), hash, t)
      ensures ok ==> if g.tensors[t].output then hash == old(hash) else !hash[t].owned
      ensures !ok ==> Explains(g, aligns, heaps, why)
      ensures Freeing(On(g), old(Now()), t) == if ok then Some(Now()) else None
    {
      hide Plannable, MemoryInv, Holds, GivesRange, AlignUp, Released, Grew, Explains;
      ReadySuits(g);
      GrewNot(heaps);
      if g.tensors[t].output {
        return true;
      }
      ReadyMemory(g);
      OwnedHolds(g, aligns, hash, heaps, t);
      ghost var was, before := hash, heaps;
      var a := hash[t].addr;
      ok := FreeIn(a.buffer, a.chunk, a.offset, g.tensors[t].sizes[a.buffer]);
      hash := hash[t := hash[t].(owned := false)];
      if ok {
        FreeKeepsMemory(g, aligns, was, before, heaps[a.buffer], t);
      } else {
        why := OutOfSlots(a.buffer, a.chunk);
        SlotsGone(g, aligns, before, heaps, a.buffer, a.chunk);
      }
    }

    /** Deal with source `j` of node `i`: one reference less, and the tensor or the root of the
        view that dies with it is freed. */
    method UpdateParent(g: Graph, i: nat, j: nat, ghost total: seq<nat>, ghost pend: seq<nat>, ghost consumed: Option<nat>)
      returns (ok: bool)
      requires Valid() && MidInv(g, aligns, hash, heaps, total, pend, i, j, consumed) && Freed(g, hash, pend, None)
      requires j < |g.tensors[g.nodes[i]].src|
      modifies Repr
      ensures Valid() && fresh(Repr - old(Repr)) && Grew(old(heaps), heaps)
      ensures var s := g.tensors[g.nodes[i]].src[j];
              pend[s] > 0 && (ok ==> MidInv(g, aligns, hash, heaps, total, pend[s := pend[s] - 1], i, j + 1, consumed)
                                     && Freed(g, hash, pend[s := pend[s] - 1], None))
      ensures !ok ==> Explains(g, aligns, heaps, why)
      ensures Dropping(On(g), old(Now()), g.tensors[g.nodes[i]].src[j]) == if ok then Some(Now()) else None
    {
      hide Valid, Ready, MidInv, Freed, Suits, CountedDown, Freeing, Grew, Explains;
      MidSuits(g, total, pend, i, j, consumed);
      var s := g.tensors[g.nodes[i]].src[j];
      var dead := DropReference(g, i, j, total, pend, consumed);
      ok := true;
      GrewNot(heaps);
      MidSuits(g, total, pend[s := pend[s] - 1], i, j + 1, consumed);
      MidNothingLate(g, aligns, hash, heaps, total, pend[s := pend[s] - 1], i, j + 1, consumed, dead);
      if hash[dead].nChildren == 0 && hash[dead].nViews == 0 && hash[dead].owned {
        ok := FreeDead(g, i, j, s, dead, total, pend[s := pend[s] - 1], consumed);
      }
    }

    /** Move the counters past source `j`; `dead` is the tensor that may now be freed. */
    method DropReference(g: Graph, i: nat, j: nat, ghost total: seq<nat>, ghost pend: seq<nat>, ghost consumed: Option<nat>)
      returns (dead: nat)
      requires Valid() && MidInv(g, aligns, hash, heaps, total, pend, i, j, consumed) && Freed(g, hash, pend, None)
      requires j < |g.tensors[g.nodes[i]].src|
      modifies this`hash
      ensures Valid() && dead < |hash|
      ensures (hash, dead) == CountedDown(g, old(hash), g.tensors[g.nodes[i]].src[j])
      ensures var s := g.tensors[g.nodes[i]].src[j];
              && (dead == s || (g.IsView(s) && dead == g.Root(s)))
              && pend[s] > 0 && MidInv(g, aligns, hash, heaps, total, pend[s := pend[s] - 1], i, j + 1, consumed)
              && Freed(g, hash, pend[s := pend[s] - 1], Some(dead))
    {
      hide Plannable, MemoryInv, LiveMid, Ahead, SafeSoFar, GivensApart, InBuffers, Freed, PendsAt, OpenViews;
      MidSuits(g, total, pend, i, j, consumed);
      PlannableParts(g, aligns);
      var s := g.tensors[g.nodes[i]].src[j];
      CountOne(g, hash, total, pend, i, j);
      ghost var was := hash;
      hash := Uncounted(hash, s);
      dead := s;
      if hash[s].nChildren == 0 && hash[s].nViews == 0 && g.IsView(s) {
        dead := g.Root(s);
        hash := ViewClosed(hash, dead);
      }
      CountKeepsMid(g, aligns, was, heaps, total, pend, i, j, consumed, hash);
      CountKeepsFreed(g, aligns, was, heaps, total, pend, i, j, consumed, hash, dead);
    }

    method FreeDead(g: Graph, i: nat, j: nat, s: nat, dead: nat,
                    ghost total: seq<nat>, ghost pend: seq<nat>, ghost consumed: Option<nat>) returns (ok: bool)
      requires i < |g.nodes| && g.InRange() && j < |g.tensors[g.nodes[i]].src| && s == g.tensors[g.nodes[i]].src[j]
      requires Valid() && MidInv(g, aligns, hash, heaps, total, pend, i, j + 1, consumed)
      requires dead == s || (g.IsView(s) && dead == g.Root(s))
      requires hash[dead].nChildren == 0 && hash[dead].nViews == 0 && hash[dead].owned && Freed(g, hash, pend, Some(dead))
      modifies Repr
      ensures Valid() && fresh(Repr - old(Repr)) && Grew(old(heaps), heaps)
      ensures ok ==> MidInv(g, aligns, hash, heaps, total, pend, i, j + 1, consumed) && Freed(g, hash, pend, None)
      ensures !ok ==> Explains(g, aligns, heaps, why)
      ensures Freeing(On(g), old(Now()), dead) == if ok then Some(Now()) else None
    {
      ghost var was, before := hash, heaps;
      DeadIsFinished(g, aligns, hash, heaps, total, pend, i, j, consumed, dead);
      forall m | i + 1 <= m < |g.nodes| ensures g.nodes[m] != dead {
        SourceIsNotAhead(g, i, s, m);
      }
      ok := FreeNode(g, dead);
      if ok {
        DropKeepsMid(g, aligns, was, before, total, pend, i, j + 1, consumed, hash, heaps, dead);
        DropKeepsFreed(g, was, pend, hash, dead);
      }
    }

    /** One turn of the main loop. */
    method PlanNode(g: Graph, i: nat, buffer: nat, ghost total: seq<nat>, ghost pend: seq<nat>)
      returns (ok: bool, ghost pend': seq<nat>)
      requires Valid() && LoopInv(g, aligns, hash, heaps, total, pend, i) && i < |g.nodes| && buffer < |tallocs|
      modifies Repr
      ensures Valid() && fresh(Repr - old(Repr)) && Grew(old(heaps), heaps)
      ensures ok ==> LoopInv(g, aligns, hash, heaps, total, pend', i + 1)
      ensures !ok ==> Explains(g, aligns, heaps, why)
      ensures Planning(On(g), old(Now()), i, buffer) == if ok then Some(Now()) else None
    {
      pend' := pend;
      ghost var consumed;
      ok, consumed := PlaceNode(g, i, buffer, total, pend);
      if !ok { return; }
      ghost var before := heaps;
      ok, pend' := UpdateParents(g, i, total, pend, consumed);
      GrewTransitive(old(heaps), before, heaps);
      if ok {
        MidToNext(g, aligns, hash, heaps, total, pend', i, consumed);
      }
    }

    method PlaceNode(g: Graph, i: nat, buffer: nat, ghost total: seq<nat>, ghost pend: seq<nat>)
      returns (ok: bool, ghost consumed: Option<nat>)
      requires Valid() && LoopInv(g, aligns, hash, heaps, total, pend, i) && i < |g.nodes| && buffer < |tallocs|
      modifies Repr
      ensures Valid() && fresh(Repr - old(Repr)) && Grew(old(heaps), heaps)
      ensures ok ==> MidInv(g, aligns, hash, heaps, total, pend, i, 0, consumed) && Freed(g, hash, pend, None)
      ensures !ok ==> Explains(g, aligns, heaps, why)
      ensures PlacingNode(On(g), old(Now()), i, buffer) == if ok then Some(Now()) else None
    {
      consumed := None;
      ok := PlaceParents(g, i, buffer, total, pend);
      if !ok { return; }
      ghost var was, before := hash, heaps;
      ok, consumed := AllocateNode(g, g.nodes[i], buffer);
      GrewTransitive(old(heaps), before, heaps);
      if ok {
        PlaceGivesMid(g, aligns, was, before, total, pend, i, hash, heaps, consumed);
      }
    }

    method UpdateParents(g: Graph, i: nat, ghost total: seq<nat>, ghost pend: seq<nat>, ghost consumed: Option<nat>)
      returns (ok: bool, ghost pend': seq<nat>)
      requires Valid() && MidInv(g, aligns, hash, heaps, total, pend, i, 0, consumed) && Freed(g, hash, pend, None)
      modifies Repr
      ensures Valid() && fresh(Repr - old(Repr)) && Grew(old(heaps), heaps)
      ensures ok ==> MidInv(g, aligns, hash, heaps, total, pend', i, |g.tensors[g.nodes[i]].src|, consumed)
                     && Freed(g, hash, pend', None)
      ensures !ok ==> Explains(g, aligns, heaps, why)
      ensures DroppingParents(On(g), old(Now()), i, 0) == if ok then Some(Now()) else None
    {
      hide Valid, Ready, MidInv, Freed, Suits, Dropping, Grew, Explains;
      ok, pend' := true, pend;
      MidSuits(g, total, pend, i, 0, consumed);
      GrewNot(heaps);
      var src := g.tensors[g.nodes[i]].src;
      var j := 0;
      while j < |src|
        invariant j <= |src| && |pend'| == |hash| == |g.tensors| && Suits(On(g), Now())
        invariant Valid() && fresh(Repr - old(Repr)) && Grew(old(heaps), heaps)
        invariant MidInv(g, aligns, hash, heaps, total, pend', i, j, consumed) && Freed(g, hash, pend', None)
        invariant DroppingParents(On(g), old(Now()), i, 0) == DroppingParents(On(g), Now(), i, j)
      {
        ghost var before := heaps;
        ok := UpdateParent(g, i, j, total, pend', consumed);
        GrewTransitive(old(heaps), before, heaps);
        if !ok { return; }
        pend' := pend'[src[j] := pend'[src[j]] - 1];
        j := j + 1;
        MidSuits(g, total, pend', i, j, consumed);
      }
    }

    /** Every source already has its address: it is present and still needed. */
    method PlaceParents(g: Graph, i: nat, buffer: nat, ghost total: seq<nat>, ghost pend: seq<nat>) returns (ok: bool)
      requires Valid() && LoopInv(g, aligns, hash, heaps, total, pend, i) && i < |g.nodes| && buffer < |tallocs|
      modifies Repr
      ensures Valid() && fresh(Repr - old(Repr)) && Grew(old(heaps), heaps)
      ensures ok ==> LoopInv(g, aligns, hash, heaps, total, pend, i)
      ensures !ok ==> Explains(g, aligns, heaps, why)
      ensures PlacingParents(On(g), old(Now()), i, buffer, 0) == if ok then Some(Now()) else None
    {
      hide Valid, Ready, LoopInv, Suits, Placing, Grew, Explains;
      ok := true;
      LoopSuits(g, total, pend, i);
      GrewNot(heaps);
      var src := g.tensors[g.nodes[i]].src;
      var j := 0;
      while j < |src|
        invariant j <= |src| && |hash| == |g.tensors| && Ready(g) && Suits(On(g), Now())
        invariant Valid() && fresh(Repr - old(Repr)) && Grew(old(heaps), heaps)
        invariant LoopInv(g, aligns, hash, heaps, total, pend, i)
        invariant PlacingParents(On(g), old(Now()), i, buffer, 0) == PlacingParents(On(g), Now(), i, buffer, j)
      {
        ghost var was, before := hash, heaps;
        ghost var consumed;
        SourceOwned(g, aligns, hash, heaps, total, pend, i, j);
        ok, consumed := AllocateNode(g, src[j], buffer);
        GrewTransitive(old(heaps), before, heaps);
        if !ok { return; }
        ReadyMemory(g);
        SameRecordsKeepLoop(g, aligns, hash, before, heaps, total, pend, i);
        ReadySuits(g);
        j := j + 1;
      }
    }

    /** Place a leaf or an input before the main loop. */
    method AllocateGiven(g: Graph, t: nat, buffer: nat, ghost k: nat, ghost i: nat) returns (ok: bool)
      requires Ready(g) && t < |g.tensors| && buffer < |tallocs| && g.Given(t)
      requires k <= |g.leafs| && i <= |g.nodes| && SetUp(g, hash, k, i)
      modifies Repr
      ensures Valid() && fresh(Repr - old(Repr)) && Grew(old(heaps), heaps)
      ensures ok ==> Ready(g) && SetUp(g, hash, k, i) && (g.Managed(t) ==> hash[t].owned)
      ensures ok ==> |hash| == |old(hash)| && forall u :: 0 <= u < |hash| ==>
                hash[u].nChildren == old(hash)[u].nChildren && hash[u].nViews == old(hash)[u].nViews
      ensures !ok ==> Explains(g, aligns, heaps, why)
      ensures Placing(On(g), old(Now()), t, buffer) == if ok then Some(Now()) else None
    {
      ghost var was := hash;
      ghost var consumed;
      ok, consumed := AllocateNode(g, t, buffer);
      if ok {
        PlaceGiven(g, was, hash, t, consumed, k, i);
      }
    }

    method AllocateLeafs(g: Graph, leafBuffers: Option<seq<nat>>) returns (ok: bool)
      requires Valid() && Plannable(g, aligns) && |tallocs| > 0
      requires BufferIds(leafBuffers, |g.leafs|, |tallocs|)
      modifies Repr
      ensures Valid() && fresh(Repr - old(Repr))
      ensures ok ==> Ready(g) && SetUp(g, hash, |g.leafs|, 0)
      ensures ok ==> forall t :: 0 <= t < |hash| ==> hash[t].nChildren == 0 && hash[t].nViews == 0
      ensures !ok ==> Explains(g, aligns, heaps, why)
      ensures PlacingLeafs(On(g), State(Blank(g), old(heaps)), leafBuffers, 0) == if ok then Some(Now()) else None
    {
      hide MemoryInv, Plannable, SetUp, Suits, Routed, BufferIds, BufferId, Placing, Explains;
      hash := Blank(g);
      NowSuits(g);
      NowRouted(g, leafBuffers, |g.leafs|);
      NothingPlaced(g, aligns, hash, heaps);
      ok := true;
      var k := 0;
      while k < |g.leafs|
        invariant k <= |g.leafs| && |hash| == |g.tensors| && Suits(On(g), Now())
        invariant Ready(g) && fresh(Repr - old(Repr)) && SetUp(g, hash, k, 0)
        invariant forall t :: 0 <= t < |hash| ==> hash[t].nChildren == 0 && hash[t].nViews == 0
        invariant PlacingLeafs(On(g), State(Blank(g), old(heaps)), leafBuffers, 0) == PlacingLeafs(On(g), Now(), leafBuffers, k)
      {
        LeafPlaceable(g, aligns, k);
        BufferInRange(leafBuffers, |g.leafs|, |tallocs|, k);
        ok := AllocateGiven(g, g.leafs[k], BufferId(leafBuffers, k), k, 0);
        if !ok { return; }
        SetUpLeaf(g, hash, k);
        NowSuits(g);
        k := k + 1;
      }
    }

    /** Count node `i`'s references, and place explicit inputs so that nothing can be given
        their memory before they are read. */
    method CountNode(g: Graph, i: nat, buffer: nat, ghost total: seq<nat>) returns (ok: bool)
      requires Ready(g) && i < |g.nodes| && buffer < |tallocs|
      requires SetUp(g, hash, |g.leafs|, i) && CountsTo(g, hash, total, i)
      modifies Repr
      ensures Valid() && fresh(Repr - old(Repr))
      ensures ok ==> Ready(g) && SetUp(g, hash, |g.leafs|, i + 1) && CountsTo(g, hash, total, i + 1)
      ensures !ok ==> Explains(g, aligns, heaps, why)
      ensures CountingNode(On(g), old(Now()), i, buffer) == if ok then Some(Now()) else None
    {
      CountView(g, i, total);
      ok := PlaceInputNode(g, i, buffer, total);
      if !ok { return; }
      ok := CountSources(g, i, buffer, total);
    }

    method PlaceInputNode(g: Graph, i: nat, buffer: nat, ghost total: seq<nat>) returns (ok: bool)
      requires Ready(g) && i < |g.nodes| && buffer < |tallocs|
      requires SetUp(g, hash, |g.leafs|, i) && CountsIn(g, hash, total, i, 0)
      modifies Repr
      ensures Valid() && fresh(Repr - old(Repr))
      ensures ok ==> Ready(g) && SetUp(g, hash, |g.leafs|, i + 1) && CountsIn(g, hash, total, i, 0)
      ensures !ok ==> Explains(g, aligns, heaps, why)
      ensures PlacingInput(On(g), old(Now()), g.nodes[i], buffer) == if ok then Some(Now()) else None
    {
      hide Plannable, MemoryInv, SetUp, CountsIn, Placing, Grew, Explains;
      PlannableParts(g, aligns);
      ReadySuits(g);
      var n := g.nodes[i];
      ok := true;
      if g.tensors[n].input {
        ghost var was := hash;
        InputGiven(g, n);
        ok := AllocateGiven(g, n, buffer, |g.leafs|, i);
        if !ok { return; }
        ReadySuits(g);
        CountsKept(g, was, hash, total, i, 0);
      }
      SetUpNext(g, hash, i);
    }

    method CountSources(g: Graph, i: nat, buffer: nat, ghost total: seq<nat>) returns (ok: bool)
      requires Ready(g) && i < |g.nodes| && buffer < |tallocs|
      requires SetUp(g, hash, |g.leafs|, i + 1) && CountsIn(g, hash, total, i, 0)
      modifies Repr
      ensures Valid() && fresh(Repr - old(Repr))
      ensures ok ==> Ready(g) && SetUp(g, hash, |g.leafs|, i + 1) && CountsTo(g, hash, total, i + 1)
      ensures !ok ==> Explains(g, aligns, heaps, why)
      ensures CountingSources(On(g), old(Now()), i, buffer, 0) == if ok then Some(Now()) else None
    {
      hide Valid, Ready, Suits, SetUp, CountsIn, CountsTo, PlacingInput, Explains;
      ReadySuits(g);
      ok := true;
      var src := g.tensors[g.nodes[i]].src;
      var j := 0;
      while j < |src|
        invariant j <= |src| && Valid() && Suits(On(g), Now())
        invariant Ready(g) && fresh(Repr - old(Repr)) && |hash| == |g.tensors| && SetUp(g, hash, |g.leafs|, i + 1)
        invariant CountsIn(g, hash, total, i, j)
        invariant CountingSources(On(g), old(Now()), i, buffer, 0) == CountingSources(On(g), Now(), i, buffer, j)
      {
        CountSource(g, i, j, total);
        ReadySuits(g);
        ok := PlaceInputSource(g, i, j, buffer, total);
        if !ok { return; }
        ReadySuits(g);
        j := j + 1;
      }
      CountsDone(g, hash, total, i);
    }

    method CountView(g: Graph, i: nat, ghost total: seq<nat>)
      requires Ready(g) && i < |g.nodes| && SetUp(g, hash, |g.leafs|, i) && CountsTo(g, hash, total, i)
      modifies this`hash
      ensures Ready(g) && SetUp(g, hash, |g.leafs|, i) && CountsIn(g, hash, total, i, 0)
      ensures hash == ViewCounted(g, old(hash), g.nodes[i])
    {
      var n := g.nodes[i];
      assert g.NodeOk(i);
      ghost var was := hash;
      if g.IsView(n) && !g.tensors[n].op.NoOp? {
        var r := g.Root(n);
        hash := hash[r := hash[r].(nViews := hash[r].nViews + 1)];
      }
      MemoryIgnoresCounters(g, aligns, was, hash, heaps);
      ViewsOneMore(g, total, i);
    }

    method PlaceInputSource(g: Graph, i: nat, j: nat, buffer: nat, ghost total: seq<nat>) returns (ok: bool)
      requires Ready(g) && i < |g.nodes| && j < |g.tensors[g.nodes[i]].src| && buffer < |tallocs|
      requires SetUp(g, hash, |g.leafs|, i + 1) && CountsIn(g, hash, total, i, j + 1)
      modifies Repr
      ensures Valid() && fresh(Repr - old(Repr))
      ensures ok ==> Ready(g) && SetUp(g, hash, |g.leafs|, i + 1) && CountsIn(g, hash, total, i, j + 1)
      ensures !ok ==> Explains(g, aligns, heaps, why)
      ensures PlacingInput(On(g), old(Now()), g.tensors[g.nodes[i]].src[j], buffer) == if ok then Some(Now()) else None
    {
      hide MemoryInv, Explains, Pending, OpenViews;
      var s := g.tensors[g.nodes[i]].src[j];
      ok := true;
      if g.tensors[s].input {
        assert g.SourceOk(i, j);
        EarlierInGraph(g, s, i);
        InputGiven(g, s);
        ok := AllocateGiven(g, s, buffer, |g.leafs|, i + 1);
      }
    }

    method CountSource(g: Graph, i: nat, j: nat, ghost total: seq<nat>)
      requires Ready(g) && i < |g.nodes| && j < |g.tensors[g.nodes[i]].src|
      requires SetUp(g, hash, |g.leafs|, i + 1) && CountsIn(g, hash, total, i, j)
      modifies this`hash
      ensures Ready(g) && SetUp(g, hash, |g.leafs|, i + 1) && CountsIn(g, hash, total, i, j + 1)
      ensures hash == SourceCounted(old(hash), g.tensors[g.nodes[i]].src[j])
    {
      var s := g.tensors[g.nodes[i]].src[j];
      ghost var was := hash;
      hash := hash[s := hash[s].(nChildren := hash[s].nChildren + 1)];
      MemoryIgnoresCounters(g, aligns, was, hash, heaps);
      CountedSource(g, was, hash, total, i, j);
    }

    method CountAll(g: Graph, nodeBuffers: Option<seq<nat>>, ghost total: seq<nat>) returns (ok: bool)
      requires Ready(g) && |tallocs| > 0 && BufferIds(nodeBuffers, |g.nodes|, |tallocs|)
      requires SetUp(g, hash, |g.leafs|, 0) && CountsTo(g, hash, total, 0)
      modifies Repr
      ensures Valid() && fresh(Repr - old(Repr))
      ensures ok ==> Ready(g) && SetUp(g, hash, |g.leafs|, |g.nodes|) && CountsTo(g, hash, total, |g.nodes|)
      ensures !ok ==> Explains(g, aligns, heaps, why)
      ensures Counting(On(g), old(Now()), nodeBuffers, 0) == if ok then Some(Now()) else None
    {
      hide Valid, Ready, Suits, Routed, BufferIds, BufferId, SetUp, CountsTo, Explains, CountingNode;
      ReadySuits(g);
      NowRouted(g, nodeBuffers, |g.nodes|);
      ok := true;
      var i := 0;
      while i < |g.nodes|
        invariant i <= |g.nodes|
        invariant Valid() && |hash| == |g.tensors| && Suits(On(g), Now())
        invariant Ready(g) && fresh(Repr - old(Repr))
        invariant SetUp(g, hash, |g.leafs|, i) && CountsTo(g, hash, total, i)
        invariant Counting(On(g), old(Now()), nodeBuffers, 0) == Counting(On(g), Now(), nodeBuffers, i)
      {
        BufferInRange(nodeBuffers, |g.nodes|, |tallocs|, i);
        ok := CountNode(g, i, BufferId(nodeBuffers, i), total);
        if !ok { return; }
        ReadySuits(g);
        i := i + 1;
      }
    }

    /** Plan a graph.  It gives up only when an allocator does or when in-place reuse would have
        to grow a tensor; otherwise the recorded addresses are a safe plan that fits the
        buffers. */
    method AllocGraph(g: Graph, nodeBuffers: Option<seq<nat>>, leafBuffers: Option<seq<nat>>) returns (ok: bool)
      requires Valid() && Plannable(g, aligns) && |tallocs| > 0
      requires BufferIds(nodeBuffers, |g.nodes|, |tallocs|) && BufferIds(leafBuffers, |g.leafs|, |tallocs|)
      modifies Repr
      ensures Valid() && fresh(Repr - old(Repr))
      ensures ok ==> |hash| == |g.tensors| && SafePlan(g, PlanOf(g, hash)) && InBuffers(g, hash, heaps, |g.nodes|)
      ensures ok ==> forall t :: 0 <= t < |hash| && (t in g.leafs || t in g.nodes) && g.Managed(t) ==>
                (hash[t].owned <==> g.Keeps(t))
      ensures !ok ==> Explains(g, aligns, heaps, why)
      ensures PlannedGraph(On(g), old(heaps), nodeBuffers, leafBuffers) == if ok then Some(Now()) else None
    {
      hide Valid, Ready, Plannable, SafePlan, InBuffers, MemoryInv, SetUp, CountsTo, Suits, Routed, BufferIds, LoopInv, Explains;
      hide PlacingLeafs, Counting, PlanningAll;
      PlannableParts(g, aligns);
      ghost var total := Totals(g);
      ok := AllocateLeafs(g, leafBuffers);
      if !ok { return; }
      ReadySuits(g);
      NothingCounted(g, hash);
      ok := CountAll(g, nodeBuffers, total);
      if !ok { return; }
      ReadyMemory(g);
      SetUpStarts(g, aligns, hash, heaps, total);
      ok := MainLoop(g, nodeBuffers, total);
      if ok {
        ghost var pend :| LoopInv(g, aligns, hash, heaps, total, pend, |g.nodes|);
        EndIsSafe(g, aligns, hash, heaps, total, pend);
        OwnedAtEnd(g, aligns, hash, heaps, total, pend);
      }
    }

    method MainLoop(g: Graph, nodeBuffers: Option<seq<nat>>, ghost total: seq<nat>) returns (ok: bool)
      requires Valid() && LoopInv(g, aligns, hash, heaps, total, total, 0)
      requires BufferIds(nodeBuffers, |g.nodes|, |tallocs|) && |tallocs| > 0
      modifies Repr
      ensures Valid() && fresh(Repr - old(Repr))
      ensures ok ==> exists pend :: LoopInv(g, aligns, hash, heaps, total, pend, |g.nodes|)
      ensures !ok ==> Explains(g, aligns, heaps, why)
      ensures PlanningAll(On(g), old(Now()), nodeBuffers, 0) == if ok then Some(Now()) else None
    {
      hide Valid, Ready, LoopInv, Suits, Routed, BufferIds, BufferId, Planning, Grew, Explains;
      ok := true;
      ghost var pend := total;
      LoopSuits(g, total, pend, 0);
      NowRouted(g, nodeBuffers, |g.nodes|);
      var i := 0;
      while i < |g.nodes|
        invariant i <= |g.nodes| && Suits(On(g), Now())
        invariant Valid() && fresh(Repr - old(Repr)) && LoopInv(g, aligns, hash, heaps, total, pend, i)
        invariant PlanningAll(On(g), old(Now()), nodeBuffers, 0) == PlanningAll(On(g), Now(), nodeBuffers, i)
      {
        BufferInRange(nodeBuffers, |g.nodes|, |tallocs|, i);
        ok, pend := PlanNode(g, i, BufferId(nodeBuffers, i), total, pend);
        if !ok { return; }
        i := i + 1;
        LoopSuits(g, total, pend, i);
      }
    }

    method ResetAllocators()
      requires Valid()
      modifies Repr
      ensures Valid() && fresh(Repr - old(Repr)) && hash == old(hash)
      ensures forall b :: 0 <= b < |heaps| ==> heaps[b] == []
    {
      var b := 0;
      while b < |tallocs|
        invariant b <= |tallocs|
        invariant Valid() && Repr == old(Repr) && hash == old(hash)
        invariant forall c :: 0 <= c < b ==> heaps[c] == []
      {
        tallocs[b].Reset();
        heaps := heaps[b := []];
        b := b + 1;
      }
    }

    /** Plan a (worst-case) graph from scratch and keep what later graphs need. */
    method ReserveN(g: Graph, nodeBuffers: Option<seq<nat>>, leafBuffers: Option<seq<nat>>) returns (ok: bool)
      requires Valid() && Plannable(g, aligns) && |tallocs| > 0
      requires BufferIds(nodeBuffers, |g.nodes|, |tallocs|) && BufferIds(leafBuffers, |g.leafs|, |tallocs|)
      modifies Repr
      ensures Valid() && fresh(Repr - old(Repr))
      ensures ok ==> |hash| == |g.tensors| && SafePlan(g, PlanOf(g, hash)) && InBuffers(g, hash, heaps, |g.nodes|)
      ensures ok ==> Recorded(g, PlanOf(g, hash), nodeAllocs) && nLeafs == |g.leafs|
      ensures !ok ==> Explains(g, aligns, heaps, why)
      ensures PlannedGraph(On(g), seq(|tallocs|, _ => []), nodeBuffers, leafBuffers) == if ok then Some(Now()) else None
    {
      hide Plannable, SafePlan, InBuffers, Explains, PlannedGraph, BufferIds;
      PlannableParts(g, aligns);
      ResetAllocators();
      assert heaps == seq(|tallocs|, _ => []);
      ok := AllocGraph(g, nodeBuffers, leafBuffers);
      if ok {
        RecordNodes(g);
        nLeafs := |g.leafs|;
      }
    }

    method RecordNodes(g: Graph)
      requires Valid() && g.WellFormed() && |hash| == |g.tensors|
      requires SafePlan(g, PlanOf(g, hash))
      modifies this`nodeAllocs
      ensures Valid() && Recorded(g, PlanOf(g, hash), nodeAllocs)
    {
      ghost var plan := PlanOf(g, hash);
      var allocs := [];
      var i := 0;
      while i < |g.nodes|
        invariant i <= |g.nodes| && |allocs| == i
        invariant forall k :: 0 <= k < i ==> allocs[k] == RecordNode(g, plan, k)
      {
        var dst := RecordTensor(g, g.nodes[i]);
        assert dst == RecordOf(g, plan, g.nodes[i]);
        var src := [];
        var j := 0;
        while j < |g.tensors[g.nodes[i]].src|
          invariant j <= |g.tensors[g.nodes[i]].src| && |src| == j
          invariant forall k :: 0 <= k < j ==> src[k] == RecordOf(g, plan, g.tensors[g.nodes[i]].src[k])
        {
          assert g.SourceOk(i, j);
          EarlierInGraph(g, g.tensors[g.nodes[i]].src[j], i);
          var a := RecordTensor(g, g.tensors[g.nodes[i]].src[j]);
          src := src + [a];
          j := j + 1;
        }
        assert src == RecordNode(g, plan, i).src;
        allocs := allocs + [NodeAlloc(dst, src)];
        i := i + 1;
      }
      nodeAllocs := allocs;
    }

    method RecordTensor(g: Graph, t: nat) returns (a: TensorAlloc)
      requires g.InRange() && |hash| == |g.tensors| && t < |hash| && (t in g.leafs || t in g.nodes)
      requires Planned(g, PlanOf(g, hash))
      ensures a == RecordOf(g, PlanOf(g, hash), t)
    {
      if g.IsView(t) || g.tensors[t].external {
        return NO_ALLOC;
      }
      assert t in PlanOf(g, hash);
      var addr := hash[t].addr;
      return TensorAlloc(addr.buffer, addr, g.tensors[t].sizes[addr.buffer]);
    }

    /** Whether the reserved plan can not be used for graph `h`. */
    method NeedsRealloc(h: Graph) returns (needed: bool)
      requires h.InRange()
      ensures needed <==> !Passes(h, nodeAllocs, nLeafs)
    {
      if |nodeAllocs| != |h.nodes| || nLeafs != |h.leafs| {
        return true;
      }
      var i := 0;
      while i < |h.nodes|
        invariant i <= |h.nodes|
        invariant forall k :: 0 <= k < i ==> NodeFits(h, k, nodeAllocs[k])
      {
        if !SizeFits(h, h.nodes[i], nodeAllocs[i].dst) {
          return true;
        }
        var src := h.tensors[h.nodes[i]].src;
        var j := 0;
        while j < |src|
          invariant j <= |src|
          invariant forall k :: 0 <= k < j ==> SourceFits(h, i, nodeAllocs[i], k)
        {
          if j >= |nodeAllocs[i].src| || !SizeFits(h, src[j], nodeAllocs[i].src[j]) {
            assert !SourceFits(h, i, nodeAllocs[i], j);
            return true;
          }
          j := j + 1;
        }
        assert NodeFits(h, i, nodeAllocs[i]);
        i := i + 1;
      }
      return false;
    }
  }
}
