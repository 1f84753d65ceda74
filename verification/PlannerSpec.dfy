/** The planner as a function: what one call of `ggml_gallocr_alloc_graph_impl` computes, or
    `None` where it aborts.  The class in Gallocr.dfy does the same in place and is proved to
    follow these functions. */
module PlannerSpec {
  import opened Wrappers
  import opened FreeBlocks
  import opened AllocRuns
  import opened GraphPlan
  import opened PlannerMemory
  import opened PlannerSafety

  /** A graph, and the alignment and the largest chunk of each buffer type. */
  datatype Job = Job(g: Graph, aligns: seq<nat>, maxes: seq<nat>)

  datatype State = State(hash: seq<HashNode>, heaps: Heaps)

  ghost predicate Suits(j: Job, s: State) {
    && j.g.InRange() && Sized(j.g, j.aligns)
    && |s.hash| == |j.g.tensors| && |s.heaps| == |j.aligns| == |j.maxes|
  }

  // ---- one buffer type ----

  datatype Grant = Grant(chunk: nat, offset: nat, chunks: seq<ChunkState>)

  /** Block `i` of chunk `c` is the allocator's choice, and there is such a chunk. */
  ghost predicate HasRoom(st: seq<ChunkState>, max: nat, size: nat, c: nat, i: nat) {
    && Chosen(st, size, c, i)
    && var h := Grown(st, c, max, size);
       |h| <= MAX_CHUNKS && c < |h| && i < |h[c].blocks| && size <= h[c].blocks[i].size
  }

  ghost function GrantAt(st: seq<ChunkState>, max: nat, size: nat, c: nat, i: nat): Grant
    requires HasRoom(st, max, size, c, i)
  {
    var h := Grown(st, c, max, size);
    Grant(c, h[c].blocks[i].offset, h[c := TakeFrom(h[c], i, size)])
  }

  ghost function Allocated(st: seq<ChunkState>, max: nat, size: nat): Option<Grant> {
    if exists c: nat, i: nat :: HasRoom(st, max, size, c, i) then
      var c: nat, i: nat :| HasRoom(st, max, size, c, i);
      Some(GrantAt(st, max, size, c, i))
    else
      None
  }

  /** The allocator has one choice at most. */
  lemma ChoiceIsUnique(st: seq<ChunkState>, size: nat, c: nat, i: nat, d: nat, j: nat)
    requires Chosen(st, size, c, i) && Chosen(st, size, d, j)
    ensures c == d && i == j
  {
    if exists e: nat, k: nat :: Fits(st, size, e, k) {
      IsTight(st, size, c, i);
      IsTight(st, size, d, j);
      assert c == d;
    } else if exists e: nat :: FitsLast(st, size, e) {
      assert BestLast(st, size, c) && BestLast(st, size, d);
    }
  }

  lemma AllocatedIs(st: seq<ChunkState>, max: nat, size: nat, c: nat, i: nat)
    requires HasRoom(st, max, size, c, i)
    ensures Allocated(st, max, size) == Some(GrantAt(st, max, size, c, i))
  {
    forall d: nat, j: nat | HasRoom(st, max, size, d, j) ensures d == c && j == i {
      ChoiceIsUnique(st, size, c, i, d, j);
    }
  }

  lemma StepIsAllocated(st: seq<ChunkState>, st': seq<ChunkState>, max: nat, size: nat, c: nat, i: nat)
    requires AllocStep(st, st', max, size, c, i) && |st'| <= MAX_CHUNKS
    ensures Allocated(st, max, size) == Some(Grant(c, Grown(st, c, max, size)[c].blocks[i].offset, st'))
  {
    hide Chosen;
    AllocatedIs(st, max, size, c, i);
  }

  lemma FullIsNotAllocated(st: seq<ChunkState>, max: nat, size: nat)
    requires Full(st, size)
    ensures Allocated(st, max, size) == None
  {
    forall c: nat, i: nat ensures !HasRoom(st, max, size, c, i) {
      if HasRoom(st, max, size, c, i) {
        assert Chosen(st, size, |st|, 0) by { NewIsChosen(st, size); }
        ChoiceIsUnique(st, size, c, i, |st|, 0);
      }
    }
  }

  /** An allocation that succeeds takes what it is allocated, and one that fails has no choice. */
  lemma GrantGiven(st: seq<ChunkState>, st': seq<ChunkState>, max: nat, size: nat, ok: bool, c: nat, offset: nat)
    requires |st'| <= MAX_CHUNKS
    requires !ok ==> Full(st, size)
    requires ok ==> exists i: nat :: AllocStep(st, st', max, size, c, i) && offset == Grown(st, c, max, size)[c].blocks[i].offset
    ensures Allocated(st, max, size) == if ok then Some(Grant(c, offset, st')) else None
  {
    hide Full, Allocated;
    if ok {
      var i: nat :| AllocStep(st, st', max, size, c, i) && offset == Grown(st, c, max, size)[c].blocks[i].offset;
      StepIsAllocated(st, st', max, size, c, i);
    } else {
      FullIsNotAllocated(st, max, size);
    }
  }

  lemma AllocEffect(st: seq<ChunkState>, st': seq<ChunkState>, max: nat, size: nat, a: nat, ok: bool, c: nat, offset: nat)
    requires a > 0 && ValidChunks(st', a)
    requires !ok ==> Full(st, size) && st' == st
    requires ok ==> exists i: nat :: AllocStep(st, st', max, size, c, i) && offset == Grown(st, c, max, size)[c].blocks[i].offset
    requires ok ==> TakesRange(st, st', c, offset, size)
    ensures Allocated(st, max, size) == if ok then Some(Grant(c, offset, st')) else None
    ensures ChunksGrew(st, st')
  {
    GrantGiven(st, st', max, size, ok, c, offset);
  }

  function Released(heaps: Heaps, a: Addr, size: nat): Option<Heaps> {
    if a.buffer < |heaps| && a.chunk < |heaps[a.buffer]| then
      var ch := GiveBack(heaps[a.buffer][a.chunk], a.offset, size);
      if |ch.blocks| <= MAX_FREE_BLOCKS then Some(heaps[a.buffer := heaps[a.buffer][a.chunk := ch]]) else None
    else
      None
  }

  // ---- one tensor ----

  ghost function Fresh(j: Job, s: State, t: nat, b: nat): (r: Option<State>)
    requires Suits(j, s) && t < |s.hash| && b < |j.aligns|
    ensures r.Some? ==> Suits(j, r.value)
  {
    assert j.g.WellSized(t);
    var x :- Allocated(s.heaps[b], j.maxes[b], Padded(j.g, j.aligns, t, b));
    Some(State(s.hash[t := s.hash[t].(addr := Addr(b, x.chunk, x.offset), owned := true)], s.heaps[b := x.chunks]))
  }

  /** The first source from the `k`-th on that tensor `t` may take over. */
  function FirstReusable(g: Graph, hash: seq<HashNode>, t: nat, k: nat): (p: Option<nat>)
    requires g.InRange() && |hash| == |g.tensors| && t < |hash| && k <= |g.tensors[t].src|
    ensures p.Some? ==> p.value < |hash|
    decreases |g.tensors[t].src| - k
  {
    var src := g.tensors[t].src;
    if k == |src| then None else if Reusable(g, hash, t, src[k]) then Some(src[k]) else FirstReusable(g, hash, t, k + 1)
  }

  /** What is left over of parent `p` goes back; a parent that is too small ends the planning. */
  ghost function TailReleased(j: Job, heaps: Heaps, t: nat, p: nat, a: Addr): Option<Heaps>
    requires Sized(j.g, j.aligns) && t < |j.g.tensors| && p < |j.g.tensors| && |heaps| == |j.aligns|
  {
    assert j.g.WellSized(t) && j.g.WellSized(p);
    if a.buffer >= |heaps| then None
    else
      var s, q := j.g.tensors[t].sizes[a.buffer], j.g.tensors[p].sizes[a.buffer];
      if q < s then None
      else if q == s then Some(heaps)
      else Released(heaps, a.(offset := a.offset + s), AlignUp(q - s, j.aligns[a.buffer]))
  }

  function HandedOver(hash: seq<HashNode>, p: nat, t: nat): seq<HashNode>
    requires p < |hash| && t < |hash|
  {
    hash[p := hash[p].(owned := false)][t := hash[t].(addr := hash[p].addr, owned := true)]
  }

  ghost function Reused(j: Job, s: State, t: nat, p: nat): (r: Option<State>)
    requires Suits(j, s) && t < |s.hash| && p < |s.hash|
    ensures r.Some? ==> Suits(j, r.value)
  {
    var heaps :- TailReleased(j, s.heaps, t, p, s.hash[p].addr);
    Some(State(HandedOver(s.hash, p, t), heaps))
  }

  /** `ggml_gallocr_allocate_node`. */
  ghost function Placing(j: Job, s: State, t: nat, b: nat): (r: Option<State>)
    requires Suits(j, s) && t < |s.hash| && b < |j.aligns|
    ensures r.Some? ==> Suits(j, r.value)
  {
    var x := j.g.tensors[t];
    if s.hash[t].owned || x.external || j.g.IsView(t) then Some(s)
    else if x.op.Op? && x.op.inplace && FirstReusable(j.g, s.hash, t, 0).Some? then
      Reused(j, s, t, FirstReusable(j.g, s.hash, t, 0).value)
    else
      Fresh(j, s, t, b)
  }

  /** `ggml_gallocr_free_node`. */
  ghost function Freeing(j: Job, s: State, t: nat): (r: Option<State>)
    requires Suits(j, s) && t < |s.hash|
    ensures r.Some? ==> Suits(j, r.value)
  {
    var a := s.hash[t].addr;
    assert j.g.WellSized(t);
    if j.g.tensors[t].output then Some(s)
    else if a.buffer >= |s.heaps| then None
    else
      var heaps :- Released(s.heaps, a, Padded(j.g, j.aligns, t, a.buffer));
      Some(State(s.hash[t := s.hash[t].(owned := false)], heaps))
  }

  // ---- one node ----

  /** The counters with one reference to `x` less, and the tensor that may die of it. */
  function CountedDown(g: Graph, hash: seq<HashNode>, x: nat): (r: (seq<HashNode>, nat))
    requires g.InRange() && |hash| == |g.tensors| && x < |hash|
    ensures |r.0| == |hash| && r.1 < |hash|
  {
    var h := Uncounted(hash, x);
    if h[x].nChildren == 0 && h[x].nViews == 0 && g.IsView(x) then (ViewClosed(h, g.Root(x)), g.Root(x)) else (h, x)
  }

  /** One reference to `x` less, and the tensor that dies of it freed. */
  ghost function Dropping(j: Job, s: State, x: nat): (r: Option<State>)
    requires Suits(j, s) && x < |s.hash|
    ensures r.Some? ==> Suits(j, r.value)
  {
    var (h, dead) := CountedDown(j.g, s.hash, x);
    if h[dead].nChildren == 0 && h[dead].nViews == 0 && h[dead].owned then Freeing(j, State(h, s.heaps), dead)
    else Some(State(h, s.heaps))
  }

  /** The sources of node `i` from the `k`-th on placed. */
  ghost function PlacingParents(j: Job, s: State, i: nat, b: nat, k: nat): (r: Option<State>)
    requires Suits(j, s) && i < |j.g.nodes| && b < |j.aligns| && k <= |j.g.tensors[j.g.nodes[i]].src|
    ensures r.Some? ==> Suits(j, r.value)
    decreases |j.g.tensors[j.g.nodes[i]].src| - k
  {
    var src := j.g.tensors[j.g.nodes[i]].src;
    if k == |src| then Some(s)
    else
      var u :- Placing(j, s, src[k], b);
      PlacingParents(j, u, i, b, k + 1)
  }

  /** The references of node `i` from its `k`-th source on dropped. */
  ghost function DroppingParents(j: Job, s: State, i: nat, k: nat): (r: Option<State>)
    requires Suits(j, s) && i < |j.g.nodes| && k <= |j.g.tensors[j.g.nodes[i]].src|
    ensures r.Some? ==> Suits(j, r.value)
    decreases |j.g.tensors[j.g.nodes[i]].src| - k
  {
    var src := j.g.tensors[j.g.nodes[i]].src;
    if k == |src| then Some(s)
    else
      var u :- Dropping(j, s, src[k]);
      DroppingParents(j, u, i, k + 1)
  }

  ghost function PlacingNode(j: Job, s: State, i: nat, b: nat): (r: Option<State>)
    requires Suits(j, s) && i < |j.g.nodes| && b < |j.aligns|
    ensures r.Some? ==> Suits(j, r.value)
  {
    var u :- PlacingParents(j, s, i, b, 0);
    Placing(j, u, j.g.nodes[i], b)
  }

  /** One turn of the main loop. */
  ghost function Planning(j: Job, s: State, i: nat, b: nat): (r: Option<State>)
    requires Suits(j, s) && i < |j.g.nodes| && b < |j.aligns|
    ensures r.Some? ==> Suits(j, r.value)
  {
    var u :- PlacingNode(j, s, i, b);
    DroppingParents(j, u, i, 0)
  }

  // ---- the whole graph ----

  /** Optional buffer ids, one per node or leaf; without them everything goes to buffer 0. */
  predicate BufferIds(ids: Option<seq<nat>>, n: nat, buffers: nat) {
    ids.Some? ==> |ids.value| == n && forall i :: 0 <= i < n ==> ids.value[i] < buffers
  }

  function BufferId(ids: Option<seq<nat>>, i: nat): nat
    requires ids.Some? ==> i < |ids.value|
  {
    if ids.Some? then ids.value[i] else 0
  }

  lemma BufferInRange(ids: Option<seq<nat>>, n: nat, buffers: nat, i: nat)
    requires BufferIds(ids, n, buffers) && buffers > 0 && i < n
    ensures ids.Some? ==> i < |ids.value|
    ensures BufferId(ids, i) < buffers
  {
  }

  ghost predicate Routed(j: Job, ids: Option<seq<nat>>, n: nat) {
    |j.aligns| > 0 && BufferIds(ids, n, |j.aligns|)
  }

  /** The main loop from node `i` on. */
  ghost function PlanningAll(j: Job, s: State, ids: Option<seq<nat>>, i: nat): (r: Option<State>)
    requires Suits(j, s) && Routed(j, ids, |j.g.nodes|) && i <= |j.g.nodes|
    ensures r.Some? ==> Suits(j, r.value)
    decreases |j.g.nodes| - i
  {
    if i == |j.g.nodes| then Some(s)
    else
      var u :- Planning(j, s, i, BufferId(ids, i));
      PlanningAll(j, u, ids, i + 1)
  }

  ghost function PlacingLeafs(j: Job, s: State, ids: Option<seq<nat>>, k: nat): (r: Option<State>)
    requires Suits(j, s) && Routed(j, ids, |j.g.leafs|) && k <= |j.g.leafs|
    ensures r.Some? ==> Suits(j, r.value)
    decreases |j.g.leafs| - k
  {
    if k == |j.g.leafs| then Some(s)
    else
      var u :- Placing(j, s, j.g.leafs[k], BufferId(ids, k));
      PlacingLeafs(j, u, ids, k + 1)
  }

  function SourceCounted(hash: seq<HashNode>, x: nat): seq<HashNode>
    requires x < |hash|
  {
    hash[x := hash[x].(nChildren := hash[x].nChildren + 1)]
  }

  function ViewCounted(g: Graph, hash: seq<HashNode>, n: nat): (r: seq<HashNode>)
    requires g.InRange() && |hash| == |g.tensors| && n < |hash|
    ensures |r| == |hash|
  {
    if g.IsView(n) && !g.tensors[n].op.NoOp? then
      hash[g.Root(n) := hash[g.Root(n)].(nViews := hash[g.Root(n)].nViews + 1)]
    else hash
  }

  ghost function PlacingInput(j: Job, s: State, t: nat, b: nat): (r: Option<State>)
    requires Suits(j, s) && t < |s.hash| && b < |j.aligns|
    ensures r.Some? ==> Suits(j, r.value)
  {
    if j.g.tensors[t].input then Placing(j, s, t, b) else Some(s)
  }

  ghost function CountingSources(j: Job, s: State, i: nat, b: nat, k: nat): (r: Option<State>)
    requires Suits(j, s) && i < |j.g.nodes| && b < |j.aligns| && k <= |j.g.tensors[j.g.nodes[i]].src|
    ensures r.Some? ==> Suits(j, r.value)
    decreases |j.g.tensors[j.g.nodes[i]].src| - k
  {
    var src := j.g.tensors[j.g.nodes[i]].src;
    if k == |src| then Some(s)
    else
      var u :- PlacingInput(j, s.(hash := SourceCounted(s.hash, src[k])), src[k], b);
      CountingSources(j, u, i, b, k + 1)
  }

  ghost function CountingNode(j: Job, s: State, i: nat, b: nat): (r: Option<State>)
    requires Suits(j, s) && i < |j.g.nodes| && b < |j.aligns|
    ensures r.Some? ==> Suits(j, r.value)
  {
    var n := j.g.nodes[i];
    var u :- PlacingInput(j, s.(hash := ViewCounted(j.g, s.hash, n)), n, b);
    CountingSources(j, u, i, b, 0)
  }

  ghost function Counting(j: Job, s: State, ids: Option<seq<nat>>, i: nat): (r: Option<State>)
    requires Suits(j, s) && Routed(j, ids, |j.g.nodes|) && i <= |j.g.nodes|
    ensures r.Some? ==> Suits(j, r.value)
    decreases |j.g.nodes| - i
  {
    if i == |j.g.nodes| then Some(s)
    else
      var u :- CountingNode(j, s, i, BufferId(ids, i));
      Counting(j, u, ids, i + 1)
  }

  function Blank(g: Graph): seq<HashNode> {
    seq(|g.tensors|, _ => BLANK)
  }

  /** All leafs, then counts and inputs, then node by node. */
  ghost function PlannedGraph(j: Job, heaps: Heaps, nodeIds: Option<seq<nat>>, leafIds: Option<seq<nat>>): (r: Option<State>)
    requires Suits(j, State(Blank(j.g), heaps)) && Routed(j, nodeIds, |j.g.nodes|) && Routed(j, leafIds, |j.g.leafs|)
    ensures r.Some? ==> Suits(j, r.value)
  {
    var s :- PlacingLeafs(j, State(Blank(j.g), heaps), leafIds, 0);
    var u :- Counting(j, s, nodeIds, 0);
    PlanningAll(j, u, nodeIds, 0)
  }

  /** The parent taken over is the first that may be. */
  lemma {:induction false} TakesFirst(g: Graph, hash: seq<HashNode>, t: nat, consumed: Option<nat>, k: nat)
    requires g.InRange() && |hash| == |g.tensors| && t < |hash| && k <= |g.tensors[t].src|
    requires TakesOver(g, hash, t, consumed) && forall i :: 0 <= i < k ==> !Reusable(g, hash, t, g.tensors[t].src[i])
    ensures FirstReusable(g, hash, t, k) == consumed
    decreases |g.tensors[t].src| - k
  {
    if k < |g.tensors[t].src| && !Reusable(g, hash, t, g.tensors[t].src[k]) {
      TakesFirst(g, hash, t, consumed, k + 1);
    }
  }
}
