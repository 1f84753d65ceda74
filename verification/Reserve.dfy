/** A plan made for a worst-case graph and used again for smaller graphs of the same shape. */
module Reserve {
  import opened Wrappers
  import opened GraphPlan

  /** What is kept of the plan for one tensor; buffer -1 marks views and tensors with data of
      their own. */
  datatype TensorAlloc = TensorAlloc(buffer: int, addr: Addr, sizeMax: nat)

  const NO_ALLOC := TensorAlloc(-1, Addr(0, 0, 0), 0)

  datatype NodeAlloc = NodeAlloc(dst: TensorAlloc, src: seq<TensorAlloc>)

  function RecordOf(g: Graph, plan: Plan, t: nat): TensorAlloc
    requires t < |g.tensors|
  {
    if g.Managed(t) && t in plan && plan[t].buffer < |g.tensors[t].sizes|
    then TensorAlloc(plan[t].buffer, plan[t], g.tensors[t].sizes[plan[t].buffer])
    else NO_ALLOC
  }

  function RecordNode(g: Graph, plan: Plan, i: nat): NodeAlloc
    requires g.InRange() && i < |g.nodes|
  {
    var src := g.tensors[g.nodes[i]].src;
    NodeAlloc(RecordOf(g, plan, g.nodes[i]), seq(|src|, k requires 0 <= k < |src| => RecordOf(g, plan, src[k])))
  }

  /** The size check of one tensor of a later graph against its record. */
  predicate SizeFits(g: Graph, t: nat, a: TensorAlloc)
    requires t < |g.tensors|
  {
    if g.Managed(t) then
      0 <= a.buffer < |g.tensors[t].sizes| && g.tensors[t].sizes[a.buffer] <= a.sizeMax
    else true
  }

  predicate SourceFits(g: Graph, i: nat, a: NodeAlloc, k: nat)
    requires g.InRange() && i < |g.nodes| && k < |g.tensors[g.nodes[i]].src|
  {
    k < |a.src| && SizeFits(g, g.tensors[g.nodes[i]].src[k], a.src[k])
  }

  predicate NodeFits(g: Graph, i: nat, a: NodeAlloc)
    requires g.InRange() && i < |g.nodes|
  {
    && SizeFits(g, g.nodes[i], a.dst)
    && forall k :: 0 <= k < |g.tensors[g.nodes[i]].src| ==> SourceFits(g, i, a, k)
  }

  /** No reallocation is called for.  Note that leafs no node reads are not looked at. */
  predicate Passes(g: Graph, nodeAllocs: seq<NodeAlloc>, nLeafs: nat)
    requires g.InRange()
  {
    && |nodeAllocs| == |g.nodes| && nLeafs == |g.leafs|
    && forall i :: 0 <= i < |g.nodes| ==> NodeFits(g, i, nodeAllocs[i])
  }

  ghost predicate Recorded(g: Graph, plan: Plan, nodeAllocs: seq<NodeAlloc>)
    requires g.InRange()
  {
    |nodeAllocs| == |g.nodes| && forall i :: 0 <= i < |g.nodes| ==> nodeAllocs[i] == RecordNode(g, plan, i)
  }

  /** The same tensors, edges and flags; sizes, lengths, offsets and layouts may differ. */
  ghost predicate SameShape(g: Graph, h: Graph) {
    && g.nodes == h.nodes && g.leafs == h.leafs && |g.tensors| == |h.tensors| && g.buffers == h.buffers
    && forall t :: 0 <= t < |g.tensors| ==> SameTensor(g, h, t)
  }

  ghost predicate SameTensor(g: Graph, h: Graph, t: nat)
    requires t < |g.tensors| == |h.tensors|
  {
    var x, y := g.tensors[t], h.tensors[t];
    x.op == y.op && x.src == y.src && x.viewSrc == y.viewSrc
    && x.input == y.input && x.output == y.output && x.external == y.external
  }

  /** Some node reads `t` itself. */
  ghost predicate ReadDirectly(g: Graph, t: nat)
    requires g.InRange()
  {
    exists i, k :: 0 <= i < |g.nodes| && 0 <= k < |g.tensors[g.nodes[i]].src| && g.tensors[g.nodes[i]].src[k] == t
  }

  ghost predicate Shrunk(g: Graph, plan: Plan, h: Graph, t: nat)
    requires t < |g.tensors| == |h.tensors|
  {
    t in plan && plan[t].buffer < |g.tensors[t].sizes| && plan[t].buffer < |h.tensors[t].sizes|
    && h.tensors[t].sizes[plan[t].buffer] <= g.tensors[t].sizes[plan[t].buffer]
  }

  /** The check covers every node and everything that is read. */
  lemma CheckedIsShrunk(g: Graph, plan: Plan, nodeAllocs: seq<NodeAlloc>, h: Graph, t: nat)
    requires g.WellFormed() && h.WellFormed() && SafePlan(g, plan) && SameShape(g, h)
    requires Recorded(g, plan, nodeAllocs) && Passes(h, nodeAllocs, |g.leafs|)
    requires t < |g.tensors| && h.Managed(t) && (t in g.nodes || ReadDirectly(h, t))
    ensures Shrunk(g, plan, h, t)
  {
    assert SameTensor(g, h, t);
    if t in g.nodes {
      var i :| 0 <= i < |g.nodes| && g.nodes[i] == t;
      assert NodeFits(h, i, nodeAllocs[i]) && nodeAllocs[i] == RecordNode(g, plan, i);
    } else {
      var i, k :| 0 <= i < |h.nodes| && 0 <= k < |h.tensors[h.nodes[i]].src| && h.tensors[h.nodes[i]].src[k] == t;
      assert NodeFits(h, i, nodeAllocs[i]) && nodeAllocs[i] == RecordNode(g, plan, i);
      assert SourceFits(h, i, nodeAllocs[i], k);
      assert SameTensor(g, h, g.nodes[i]);
    }
  }

  lemma ShapeKeepsUnread(g: Graph, h: Graph, t: nat)
    requires g.InRange() && h.InRange() && SameShape(g, h) && h.Unread(t)
    ensures g.Unread(t)
  {
    forall j | 0 <= j < |g.nodes| ensures !g.Reads(j, t) {
      assert SameTensor(g, h, g.nodes[j]) && !h.Reads(j, t);
    }
  }

  lemma ShapeKeepsViews(g: Graph, h: Graph, t: nat)
    requires g.InRange() && h.InRange() && SameShape(g, h) && h.KeptForView(t)
    ensures g.KeptForView(t)
  {
    var m :| 0 <= m < |h.nodes| && h.UnreadView(m, t);
    assert SameTensor(g, h, g.nodes[m]);
    ShapeKeepsUnread(g, h, g.nodes[m]);
    assert g.UnreadView(m, t);
  }

  lemma ShapeKeepsLiveness(g: Graph, h: Graph, i: nat, t: nat)
    requires g.InRange() && h.InRange() && SameShape(g, h) && i < |g.nodes| && t < |g.tensors|
    ensures MustSurvive(h, i, t) ==> MustSurvive(g, i, t)
  {
    assert SameTensor(g, h, t) && SameTensor(g, h, g.nodes[i]);
    if h.Needed(t, i + 1) { ShapeKeepsNeeded(g, h, t, i + 1); }
  }

  lemma SameShapeBack(g: Graph, h: Graph)
    requires SameShape(g, h)
    ensures SameShape(h, g)
  {
    forall t | 0 <= t < |g.tensors| ensures SameTensor(h, g, t) { assert SameTensor(g, h, t); }
  }

  lemma ShapeKeepsReads(g: Graph, h: Graph, j: nat, t: nat)
    requires g.InRange() && h.InRange() && SameShape(g, h) && j < |g.nodes| && h.ReadsRoot(j, t)
    ensures g.ReadsRoot(j, t)
  {
    assert SameTensor(g, h, g.nodes[j]);
    var k :| 0 <= k < |h.tensors[h.nodes[j]].src| && h.Root(h.tensors[h.nodes[j]].src[k]) == t;
    assert SameTensor(g, h, h.tensors[h.nodes[j]].src[k]);
    assert g.Root(g.tensors[g.nodes[j]].src[k]) == t;
  }

  lemma ShapeKeepsNeeded(g: Graph, h: Graph, t: nat, i: nat)
    requires g.InRange() && h.InRange() && SameShape(g, h) && t < |g.tensors| && h.Needed(t, i)
    ensures g.Needed(t, i)
  {
    assert SameTensor(g, h, t);
    if h.KeptForView(t) {
      ShapeKeepsViews(g, h, t);
    } else if !h.IsRead(t) {
      SameShapeBack(g, h);
      if j :| 0 <= j < |g.nodes| && g.ReadsRoot(j, t) { ShapeKeepsReads(h, g, j, t); }
    } else if !h.tensors[t].output {
      var j :| i <= j < |h.nodes| && h.ReadsRoot(j, t);
      ShapeKeepsReads(g, h, j, t);
    }
  }

  lemma ShapeKeepsTakeover(g: Graph, plan: Plan, h: Graph, i: nat, s: nat)
    requires g.InRange() && h.InRange() && SameShape(g, h) && i < |g.nodes| && s < |g.tensors| && TakenOver(g, plan, i, s)
    ensures TakenOver(h, plan, i, s)
  {
    assert SameTensor(g, h, s) && SameTensor(g, h, g.nodes[i]);
    if h.Needed(s, i + 1) { ShapeKeepsNeeded(g, h, s, i + 1); }
  }

  /** The same reads happen while the same node writes. */
  lemma ShapeKeepsSources(g: Graph, h: Graph, i: nat, k: nat)
    requires g.InRange() && h.InRange() && SameShape(g, h) && i < |g.nodes|
    requires k < |h.tensors[h.nodes[i]].src| && ReadsWhileWriting(h, i, k)
    ensures h.nodes[i] == g.nodes[i] && k < |g.tensors[g.nodes[i]].src| && ReadsWhileWriting(g, i, k)
    ensures var s := g.tensors[g.nodes[i]].src[k]; h.tensors[h.nodes[i]].src[k] == s && g.Root(s) == h.Root(s)
  {
    assert SameTensor(g, h, g.nodes[i]);
    var s := g.tensors[g.nodes[i]].src[k];
    assert SameTensor(g, h, s);
    assert SameTensor(g, h, g.Root(s));
  }

  lemma ShrunkStaysApart(g: Graph, plan: Plan, h: Graph, t: nat, u: nat)
    requires |g.tensors| == |h.tensors| && t < |g.tensors| && u < |g.tensors|
    requires Disjoint(g, plan, t, u) && Shrunk(g, plan, h, t) && Shrunk(g, plan, h, u)
    ensures Disjoint(h, plan, t, u)
  {
  }

  /** A reserved plan stays safe - and so, by `RunAgrees`, meaning-preserving - for every graph of
      the same shape that passes the check, provided leafs that no node reads did not grow. */
  lemma ReservedPlanIsSafe(g: Graph, plan: Plan, nodeAllocs: seq<NodeAlloc>, h: Graph)
    requires g.WellFormed() && h.WellFormed() && SafePlan(g, plan) && SameShape(g, h)
    requires Recorded(g, plan, nodeAllocs) && Passes(h, nodeAllocs, |g.leafs|)
    requires forall t :: 0 <= t < |g.tensors| && t in g.leafs && h.Managed(t) && !ReadDirectly(h, t) ==> Shrunk(g, plan, h, t)
    ensures SafePlan(h, plan)
  {
    forall t | 0 <= t < |h.tensors| && (t in h.leafs || t in h.nodes) && h.Managed(t) ensures Shrunk(g, plan, h, t) {
      if t in g.nodes || ReadDirectly(h, t) {
        CheckedIsShrunk(g, plan, nodeAllocs, h, t);
      }
    }
    forall t, u | 0 <= t < |h.tensors| && 0 <= u < |h.tensors| && BothGiven(h, t, u) ensures Disjoint(h, plan, t, u) {
      assert SameTensor(g, h, t) && SameTensor(g, h, u);
      assert BothGiven(g, t, u);
      ShrunkStaysApart(g, plan, h, t, u);
    }
    forall i, t | 0 <= i < |h.nodes| && 0 <= t < |h.tensors| && MustSurvive(h, i, t) ensures Disjoint(h, plan, h.nodes[i], t) {
      ShapeKeepsLiveness(g, h, i, t);
      assert Disjoint(g, plan, g.nodes[i], t);
      assert t in h.leafs || t in h.nodes;
      ShrunkStaysApart(g, plan, h, g.nodes[i], t);
    }
    forall i, k | 0 <= i < |h.nodes| && 0 <= k < |h.tensors[h.nodes[i]].src| && ReadsWhileWriting(h, i, k)
      ensures SourceApart(h, plan, i, k)
    {
      hide Shrunk, Disjoint, ReadsWhileWriting, Recorded, Passes, TakenOver;
      ShapeKeepsSources(g, h, i, k);
      SourceInGraph(h, i, k);
      SourceStaysApart(g, plan, h, i, k);
    }
  }

  lemma SourceInGraph(h: Graph, i: nat, k: nat)
    requires h.WellFormed() && i < |h.nodes| && k < |h.tensors[h.nodes[i]].src| && ReadsWhileWriting(h, i, k)
    ensures var r := h.Root(h.tensors[h.nodes[i]].src[k]); h.Managed(r) && (r in h.leafs || r in h.nodes)
    ensures h.Managed(h.nodes[i])
  {
    SourceIsThere(h, i, k);
  }

  /** A source that lies apart, or is taken over, still does when neither has grown. */
  lemma SourceStaysApart(g: Graph, plan: Plan, h: Graph, i: nat, k: nat)
    requires g.InRange() && h.InRange() && SafePlan(g, plan) && SameShape(g, h) && i < |g.nodes|
    requires k < |g.tensors[g.nodes[i]].src| && ReadsWhileWriting(g, i, k)
    requires h.nodes[i] == g.nodes[i] && k < |h.tensors[h.nodes[i]].src|
    requires var s := g.tensors[g.nodes[i]].src[k];
             h.tensors[h.nodes[i]].src[k] == s && h.Root(s) == g.Root(s)
             && (TakenOver(g, plan, i, s) || (Shrunk(g, plan, h, g.nodes[i]) && Shrunk(g, plan, h, g.Root(s))))
    ensures SourceApart(h, plan, i, k)
  {
    var s := g.tensors[g.nodes[i]].src[k];
    hide Shrunk, Disjoint, TakenOver;
    assert SourceApart(g, plan, i, k);
    if TakenOver(g, plan, i, s) {
      ShapeKeepsTakeover(g, plan, h, i, s);
    } else {
      ShrunkStaysApart(g, plan, h, g.nodes[i], g.Root(s));
    }
  }

  // ---- exactly when the size check protects a plan ----

  /** Tensor `u` keeps clear of a tensor `t` that grows in place: it lies in another chunk or ends
      where `t` starts, if not before. */
  ghost predicate ClearOf(g: Graph, plan: Plan, u: nat, t: nat)
    requires u < |g.tensors| && t < |g.tensors|
  {
    && u in plan && t in plan && plan[u].buffer < |g.tensors[u].sizes|
    && (plan[u].buffer != plan[t].buffer || plan[u].chunk != plan[t].chunk
        || plan[u].offset + g.tensors[u].sizes[plan[u].buffer] <= plan[t].offset)
  }

  /** A leaf of the plan that the check does not look at. */
  ghost predicate Unchecked(g: Graph, t: nat)
    requires g.InRange() && t < |g.tensors|
  {
    t in g.leafs && g.Managed(t) && !ReadDirectly(g, t)
  }

  /** Nothing that the leaf must not overlap lies above it in its chunk. */
  ghost predicate OnTop(g: Graph, plan: Plan, t: nat)
    requires g.InRange() && t < |g.tensors|
  {
    && (forall u :: 0 <= u < |g.tensors| && BothGiven(g, t, u) ==> ClearOf(g, plan, u, t))
    && (forall i :: 0 <= i < |g.nodes| && MustSurvive(g, i, t) ==> ClearOf(g, plan, g.nodes[i], t))
    && (forall i, k :: 0 <= i < |g.nodes| && 0 <= k < |g.tensors[g.nodes[i]].src| && ReadsThrough(g, i, k, t) ==>
          ClearOf(g, plan, g.nodes[i], t))
  }

  /** Node `i` reads `t` through its source `k` while it writes. */
  predicate ReadsThrough(g: Graph, i: nat, k: nat, t: nat)
    requires g.InRange() && i < |g.nodes| && k < |g.tensors[g.nodes[i]].src|
  {
    ReadsWhileWriting(g, i, k) && g.Root(g.tensors[g.nodes[i]].src[k]) == t
  }

  ghost predicate UncheckedOnTop(g: Graph, plan: Plan)
    requires g.InRange()
  {
    forall t :: 0 <= t < |g.tensors| && Unchecked(g, t) ==> OnTop(g, plan, t)
  }

  /** The check is enough: every graph of this shape that passes it can use the plan. */
  ghost predicate CheckProtects(g: Graph, plan: Plan, nodeAllocs: seq<NodeAlloc>) {
    forall h: Graph :: h.WellFormed() && SameShape(g, h) && Passes(h, nodeAllocs, |g.leafs|) ==> SafePlan(h, plan)
  }

  lemma ClearIsDisjoint(g: Graph, plan: Plan, h: Graph, u: nat, t: nat)
    requires |g.tensors| == |h.tensors| && u < |g.tensors| && t < |g.tensors| && ClearOf(g, plan, u, t)
    requires Shrunk(g, plan, h, u) && plan[t].buffer < |h.tensors[t].sizes|
    ensures Disjoint(h, plan, u, t) && Disjoint(h, plan, t, u)
  {
  }

  /** Two unchecked leafs can not each be on top of the other in one chunk. */
  lemma BothOnTop(g: Graph, plan: Plan, t: nat, u: nat)
    requires g.WellFormed() && t < |g.tensors| && u < |g.tensors|
    requires ClearOf(g, plan, u, t) && ClearOf(g, plan, t, u)
    ensures plan[u].buffer != plan[t].buffer || plan[u].chunk != plan[t].chunk
  {
    assert g.WellSized(t) && g.WellSized(u);
  }

  lemma UncheckedOrShrunk(g: Graph, plan: Plan, nodeAllocs: seq<NodeAlloc>, h: Graph, t: nat)
    requires g.WellFormed() && h.WellFormed() && SafePlan(g, plan) && SameShape(g, h)
    requires Recorded(g, plan, nodeAllocs) && Passes(h, nodeAllocs, |g.leafs|)
    requires t < |g.tensors| && h.Managed(t) && (t in g.leafs || t in g.nodes)
    ensures t in plan && plan[t].buffer < |h.tensors[t].sizes|
    ensures Unchecked(g, t) || Shrunk(g, plan, h, t)
  {
    assert SameTensor(g, h, t);
    assert g.WellSized(t) && h.WellSized(t);
    if t in g.nodes {
      CheckedIsShrunk(g, plan, nodeAllocs, h, t);
    } else if ReadDirectly(g, t) {
      var i, k :| 0 <= i < |g.nodes| && 0 <= k < |g.tensors[g.nodes[i]].src| && g.tensors[g.nodes[i]].src[k] == t;
      assert SameTensor(g, h, g.nodes[i]);
      assert h.tensors[h.nodes[i]].src[k] == t;
      CheckedIsShrunk(g, plan, nodeAllocs, h, t);
    }
  }

  lemma GivensStayApart(g: Graph, plan: Plan, nodeAllocs: seq<NodeAlloc>, h: Graph, t: nat, u: nat)
    requires g.WellFormed() && h.WellFormed() && SafePlan(g, plan) && SameShape(g, h)
    requires Recorded(g, plan, nodeAllocs) && Passes(h, nodeAllocs, |g.leafs|) && UncheckedOnTop(g, plan)
    requires t < |g.tensors| && u < |g.tensors| && BothGiven(h, t, u)
    ensures Disjoint(h, plan, t, u)
  {
    hide Shrunk, ClearOf, Disjoint, Unchecked, Recorded;
    assert SameTensor(g, h, t) && SameTensor(g, h, u);
    assert BothGiven(g, t, u) && BothGiven(g, u, t);
    UncheckedOrShrunk(g, plan, nodeAllocs, h, t);
    UncheckedOrShrunk(g, plan, nodeAllocs, h, u);
    if !Unchecked(g, t) && !Unchecked(g, u) {
      ShrunkStaysApart(g, plan, h, t, u);
    } else if Unchecked(g, t) && Shrunk(g, plan, h, u) {
      ClearIsDisjoint(g, plan, h, u, t);
    } else if Unchecked(g, u) && Shrunk(g, plan, h, t) {
      ClearIsDisjoint(g, plan, h, t, u);
    } else {
      BothOnTop(g, plan, t, u);
      OtherChunk(h, plan, t, u);
    }
  }

  lemma OtherChunk(h: Graph, plan: Plan, t: nat, u: nat)
    requires t < |h.tensors| && u < |h.tensors| && t in plan && u in plan
    requires plan[t].buffer < |h.tensors[t].sizes| && plan[u].buffer < |h.tensors[u].sizes|
    requires plan[u].buffer != plan[t].buffer || plan[u].chunk != plan[t].chunk
    ensures Disjoint(h, plan, t, u)
  {
  }

  lemma SurvivorsStayApart(g: Graph, plan: Plan, nodeAllocs: seq<NodeAlloc>, h: Graph, i: nat, t: nat)
    requires g.WellFormed() && h.WellFormed() && SafePlan(g, plan) && SameShape(g, h)
    requires Recorded(g, plan, nodeAllocs) && Passes(h, nodeAllocs, |g.leafs|) && UncheckedOnTop(g, plan)
    requires i < |g.nodes| && t < |g.tensors| && MustSurvive(h, i, t)
    ensures Disjoint(h, plan, h.nodes[i], t)
  {
    hide Shrunk, ClearOf, Disjoint, Unchecked, Recorded;
    ShapeKeepsLiveness(g, h, i, t);
    UncheckedOrShrunk(g, plan, nodeAllocs, h, t);
    CheckedIsShrunk(g, plan, nodeAllocs, h, g.nodes[i]);
    if Unchecked(g, t) {
      ClearIsDisjoint(g, plan, h, g.nodes[i], t);
    } else {
      assert Disjoint(g, plan, g.nodes[i], t);
      ShrunkStaysApart(g, plan, h, g.nodes[i], t);
    }
  }

  /** An unchecked leaf is read through views only, so no node takes it over. */
  lemma UncheckedNotTakenOver(g: Graph, plan: Plan, i: nat, k: nat)
    requires g.WellFormed() && i < |g.nodes| && k < |g.tensors[g.nodes[i]].src|
    requires Unchecked(g, g.Root(g.tensors[g.nodes[i]].src[k]))
    ensures !TakenOver(g, plan, i, g.tensors[g.nodes[i]].src[k])
  {
  }

  lemma SourcesStayApart(g: Graph, plan: Plan, nodeAllocs: seq<NodeAlloc>, h: Graph, i: nat, k: nat)
    requires g.WellFormed() && h.WellFormed() && SafePlan(g, plan) && SameShape(g, h)
    requires Recorded(g, plan, nodeAllocs) && Passes(h, nodeAllocs, |g.leafs|) && UncheckedOnTop(g, plan)
    requires i < |h.nodes| && k < |h.tensors[h.nodes[i]].src| && ReadsWhileWriting(h, i, k)
    ensures SourceApart(h, plan, i, k)
  {
    hide Shrunk, ClearOf, Disjoint, Unchecked, Recorded, Passes, TakenOver, SafePlan;
    ShapeKeepsSources(g, h, i, k);
    SourceInGraph(h, i, k);
    var r := g.Root(g.tensors[g.nodes[i]].src[k]);
    CheckedIsShrunk(g, plan, nodeAllocs, h, g.nodes[i]);
    UncheckedOrShrunk(g, plan, nodeAllocs, h, r);
    if Unchecked(g, r) {
      assert ReadsThrough(g, i, k, r);
      ClearIsDisjoint(g, plan, h, g.nodes[i], r);
    } else {
      SourceStaysApart(g, plan, h, i, k);
    }
  }

  lemma OnTopIsProtected(g: Graph, plan: Plan, nodeAllocs: seq<NodeAlloc>, h: Graph)
    requires g.WellFormed() && h.WellFormed() && SafePlan(g, plan) && SameShape(g, h)
    requires Recorded(g, plan, nodeAllocs) && Passes(h, nodeAllocs, |g.leafs|) && UncheckedOnTop(g, plan)
    ensures SafePlan(h, plan)
  {
    hide Recorded, Passes, UncheckedOnTop, Unchecked, Shrunk;
    forall t | 0 <= t < |h.tensors| && (t in h.leafs || t in h.nodes) && h.Managed(t)
      ensures t in plan && plan[t].buffer < |h.tensors[t].sizes|
    {
      UncheckedOrShrunk(g, plan, nodeAllocs, h, t);
    }
    forall t, u | 0 <= t < |h.tensors| && 0 <= u < |h.tensors| && BothGiven(h, t, u) ensures Disjoint(h, plan, t, u) {
      GivensStayApart(g, plan, nodeAllocs, h, t, u);
    }
    forall i, t | 0 <= i < |h.nodes| && 0 <= t < |h.tensors| && MustSurvive(h, i, t) ensures Disjoint(h, plan, h.nodes[i], t) {
      SurvivorsStayApart(g, plan, nodeAllocs, h, i, t);
    }
    forall i, k | 0 <= i < |h.nodes| && 0 <= k < |h.tensors[h.nodes[i]].src| && ReadsWhileWriting(h, i, k)
      ensures SourceApart(h, plan, i, k)
    {
      SourcesStayApart(g, plan, nodeAllocs, h, i, k);
    }
  }

  /** The graph with tensor `t` needing `size` bytes in buffer `b`. */
  function GrownAt(g: Graph, t: nat, b: nat, size: nat): Graph
    requires t < |g.tensors| && b < |g.tensors[t].sizes|
  {
    g.(tensors := g.tensors[t := g.tensors[t].(sizes := g.tensors[t].sizes[b := size])])
  }

  lemma GrownShape(g: Graph, t: nat, b: nat, size: nat)
    requires g.InRange() && t < |g.tensors| && b < |g.tensors[t].sizes|
    ensures var h := GrownAt(g, t, b, size); h.InRange() && SameShape(g, h) && SameShape(h, g)
  {
    var h := GrownAt(g, t, b, size);
    assert forall u :: 0 <= u < |g.tensors| ==> SameTensor(g, h, u) && SameTensor(h, g, u);
  }

  lemma GrownWellFormed(g: Graph, t: nat, b: nat, size: nat)
    requires g.WellFormed() && t < |g.tensors| && b < |g.tensors[t].sizes| && size >= g.tensors[t].sizes[b]
    ensures var h := GrownAt(g, t, b, size); h.WellFormed() && SameShape(g, h)
  {
    var h := GrownAt(g, t, b, size);
    assert g.WellSized(t);
    GrownSizes(g, t, b, size);
    GrownShape(g, t, b, size);
    assert forall i, j :: 0 <= i < |h.nodes| && 0 <= j < |h.nodes| && h.SameNode(i, j) ==> g.SameNode(i, j);
    forall i | 0 <= i < |h.leafs| ensures h.LeafOk(i) { assert g.LeafOk(i); }
    forall i | 0 <= i < |h.nodes| ensures h.NodeOk(i) {
      assert g.NodeOk(i);
      if g.Unread(g.nodes[i]) { ShapeKeepsUnread(h, g, g.nodes[i]); }
    }
    forall i, k | 0 <= i < |h.nodes| && 0 <= k < |h.tensors[h.nodes[i]].src| ensures h.SourceOk(i, k) { assert g.SourceOk(i, k); }
  }

  lemma GrownSizes(g: Graph, t: nat, b: nat, size: nat)
    requires g.WellFormed() && t < |g.tensors| && b < |g.tensors[t].sizes| && size >= g.tensors[t].sizes[b]
    ensures var h := GrownAt(g, t, b, size);
            (forall u :: 0 <= u < |h.tensors| ==> h.WellSized(u)) && (forall u :: 0 <= u < |g.tensors| ==> SameTensor(g, h, u))
  {
    var h := GrownAt(g, t, b, size);
    forall u | 0 <= u < |h.tensors| ensures h.WellSized(u) {
      assert g.WellSized(t) && g.WellSized(u);
    }
  }

  /** A leaf that is not looked at may grow and the graph passes all the same. */
  lemma GrownPasses(g: Graph, plan: Plan, nodeAllocs: seq<NodeAlloc>, t: nat, b: nat, size: nat)
    requires g.WellFormed() && SafePlan(g, plan) && Recorded(g, plan, nodeAllocs)
    requires t < |g.tensors| && Unchecked(g, t) && b < |g.tensors[t].sizes|
    requires GrownAt(g, t, b, size).InRange()
    ensures Passes(GrownAt(g, t, b, size), nodeAllocs, |g.leafs|)
  {
    var h := GrownAt(g, t, b, size);
    forall i | 0 <= i < |h.nodes| ensures NodeFits(h, i, nodeAllocs[i]) {
      assert nodeAllocs[i] == RecordNode(g, plan, i);
      assert g.NodeOk(i) && g.nodes[i] != t;
      RecordFits(g, plan, h, g.nodes[i]);
      forall k | 0 <= k < |h.tensors[h.nodes[i]].src| ensures SourceFits(h, i, nodeAllocs[i], k) {
        var s := g.tensors[g.nodes[i]].src[k];
        assert g.SourceOk(i, k);
        EarlierInGraph(g, s, i);
        RecordFits(g, plan, h, s);
      }
    }
  }

  lemma RecordFits(g: Graph, plan: Plan, h: Graph, u: nat)
    requires Planned(g, plan) && |h.tensors| == |g.tensors| && u < |g.tensors| && h.tensors[u] == g.tensors[u]
    requires u in g.leafs || u in g.nodes
    ensures SizeFits(h, u, RecordOf(g, plan, u))
  {
  }

  /** What a grown leaf reaches into is no longer apart from it. */
  lemma GrownOverlaps(g: Graph, plan: Plan, t: nat, u: nat) returns (size: nat)
    requires g.WellFormed() && t != u && t < |g.tensors| && u < |g.tensors|
    requires (Disjoint(g, plan, u, t) || Disjoint(g, plan, t, u)) && !ClearOf(g, plan, u, t)
    ensures plan[t].buffer < |g.tensors[t].sizes| && size >= g.tensors[t].sizes[plan[t].buffer]
    ensures var h := GrownAt(g, t, plan[t].buffer, size); !Disjoint(h, plan, u, t) && !Disjoint(h, plan, t, u)
  {
    assert g.WellSized(t) && g.WellSized(u);
    size := plan[u].offset + g.tensors[u].sizes[plan[u].buffer] - plan[t].offset;
  }

  lemma CoveredIsNotProtected(g: Graph, plan: Plan, nodeAllocs: seq<NodeAlloc>, t: nat)
    requires g.WellFormed() && SafePlan(g, plan) && Recorded(g, plan, nodeAllocs)
    requires t < |g.tensors| && Unchecked(g, t) && !OnTop(g, plan, t)
    ensures !CheckProtects(g, plan, nodeAllocs)
  {
    hide Disjoint, ClearOf, Recorded, Passes, GrownAt;
    if u :| 0 <= u < |g.tensors| && BothGiven(g, t, u) && !ClearOf(g, plan, u, t) {
      assert Disjoint(g, plan, t, u);
      var size := GrownOverlaps(g, plan, t, u);
      GrownGivens(g, t, u, plan[t].buffer, size);
      GrownBreaks(g, plan, nodeAllocs, t, size);
    } else if i :| 0 <= i < |g.nodes| && MustSurvive(g, i, t) && !ClearOf(g, plan, g.nodes[i], t) {
      assert Disjoint(g, plan, g.nodes[i], t);
      var size := GrownOverlaps(g, plan, t, g.nodes[i]);
      GrownSurvives(g, t, i, plan[t].buffer, size);
      GrownBreaks(g, plan, nodeAllocs, t, size);
    } else {
      var i, k :| 0 <= i < |g.nodes| && 0 <= k < |g.tensors[g.nodes[i]].src| && ReadsThrough(g, i, k, t)
                  && !ClearOf(g, plan, g.nodes[i], t);
      CoveredSource(g, plan, nodeAllocs, t, i, k);
    }
  }

  lemma CoveredSource(g: Graph, plan: Plan, nodeAllocs: seq<NodeAlloc>, t: nat, i: nat, k: nat)
    requires g.WellFormed() && SafePlan(g, plan) && Recorded(g, plan, nodeAllocs)
    requires t < |g.tensors| && Unchecked(g, t) && i < |g.nodes| && k < |g.tensors[g.nodes[i]].src|
    requires ReadsThrough(g, i, k, t) && !ClearOf(g, plan, g.nodes[i], t)
    ensures !CheckProtects(g, plan, nodeAllocs)
  {
    hide Disjoint, ClearOf, Recorded, Passes, GrownAt, TakenOver;
    UncheckedNotTakenOver(g, plan, i, k);
    assert SourceApart(g, plan, i, k);
    SourceDiffers(g, i, k);
    var size := GrownOverlaps(g, plan, t, g.nodes[i]);
    GrownSource(g, plan, t, i, k, plan[t].buffer, size);
    GrownBreaks(g, plan, nodeAllocs, t, size);
  }

  lemma GrownSource(g: Graph, plan: Plan, t: nat, i: nat, k: nat, b: nat, size: nat)
    requires g.WellFormed() && t < |g.tensors| && i < |g.nodes| && k < |g.tensors[g.nodes[i]].src| && b < |g.tensors[t].sizes|
    requires ReadsThrough(g, i, k, t) && Unchecked(g, t)
    requires !Disjoint(GrownAt(g, t, b, size), plan, g.nodes[i], t)
    ensures var h := GrownAt(g, t, b, size); h.InRange() && !SafePlan(h, plan)
  {
    var h := GrownAt(g, t, b, size);
    GrownShape(g, t, b, size);
    ShapeKeepsSources(h, g, i, k);
    UncheckedNotTakenOver(g, plan, i, k);
    if TakenOver(h, plan, i, g.tensors[g.nodes[i]].src[k]) {
      ShapeKeepsTakeover(h, plan, g, i, g.tensors[g.nodes[i]].src[k]);
    }
    assert !SourceApart(h, plan, i, k);
  }

  lemma GrownBreaks(g: Graph, plan: Plan, nodeAllocs: seq<NodeAlloc>, t: nat, size: nat)
    requires g.WellFormed() && SafePlan(g, plan) && Recorded(g, plan, nodeAllocs) && t < |g.tensors| && Unchecked(g, t)
    requires t in plan && plan[t].buffer < |g.tensors[t].sizes| && size >= g.tensors[t].sizes[plan[t].buffer]
    requires var h := GrownAt(g, t, plan[t].buffer, size); h.InRange() && !SafePlan(h, plan)
    ensures !CheckProtects(g, plan, nodeAllocs)
  {
    hide SafePlan, Recorded, GrownAt, Passes;
    GrownWellFormed(g, t, plan[t].buffer, size);
    GrownPasses(g, plan, nodeAllocs, t, plan[t].buffer, size);
  }

  lemma GrownGivens(g: Graph, t: nat, u: nat, b: nat, size: nat)
    requires g.WellFormed() && t < |g.tensors| && u < |g.tensors| && b < |g.tensors[t].sizes| && BothGiven(g, t, u)
    ensures var h := GrownAt(g, t, b, size); h.InRange() && |h.tensors| == |g.tensors| && BothGiven(h, t, u)
  {
  }

  lemma GrownSurvives(g: Graph, t: nat, i: nat, b: nat, size: nat)
    requires g.WellFormed() && t < |g.tensors| && i < |g.nodes| && b < |g.tensors[t].sizes| && MustSurvive(g, i, t)
    ensures var h := GrownAt(g, t, b, size);
            h.InRange() && h.nodes == g.nodes && |h.tensors| == |g.tensors| && MustSurvive(h, i, t)
  {
    GrownShape(g, t, b, size);
    ShapeKeepsLiveness(GrownAt(g, t, b, size), g, i, t);
  }

  /** The size check protects a plan exactly when, of the leafs no node reads, each lies above
      everything in its chunk that it must not overlap. */
  lemma CheckProtectsIff(g: Graph, plan: Plan, nodeAllocs: seq<NodeAlloc>)
    requires g.WellFormed() && SafePlan(g, plan) && Recorded(g, plan, nodeAllocs)
    ensures CheckProtects(g, plan, nodeAllocs) <==> UncheckedOnTop(g, plan)
  {
    hide SafePlan, Recorded, OnTop, Unchecked, Passes, SameShape;
    if UncheckedOnTop(g, plan) {
      forall h: Graph | h.WellFormed() && SameShape(g, h) && Passes(h, nodeAllocs, |g.leafs|) ensures SafePlan(h, plan) {
        OnTopIsProtected(g, plan, nodeAllocs, h);
      }
    } else {
      var t :| 0 <= t < |g.tensors| && Unchecked(g, t) && !OnTop(g, plan, t);
      CoveredIsNotProtected(g, plan, nodeAllocs, t);
    }
  }

  /** Two leafs nobody reads; the first takes `size` bytes. */
  function LeafPair(size: nat): Graph {
    var x := Tensor(NoOp, [], None, 0, false, false, false, 0, 8, [8]);
    Graph([x.(sizes := [size]), x], [], [0, 1], 1)
  }

  lemma LeafPairWellFormed(size: nat)
    requires size >= 8
    ensures LeafPair(size).WellFormed()
    ensures LeafPair(size).Given(0) && LeafPair(size).Given(1)
  {
    var g := LeafPair(size);
    assert g.leafs[0] == 0 && g.leafs[1] == 1;
    assert g.WellSized(0) && g.WellSized(1);
    assert g.LeafOk(0) && g.LeafOk(1);
  }

  const PAIR_PLAN: Plan := map[0 := Addr(0, 0, 0), 1 := Addr(0, 0, 8)]

  lemma LeafPairFits()
    requires LeafPair(8).WellFormed()
    ensures SafePlan(LeafPair(8), PAIR_PLAN) && Recorded(LeafPair(8), PAIR_PLAN, [])
  {
  }

  lemma LeafPairPasses(size: nat)
    requires size >= 8 && LeafPair(8).WellFormed() && LeafPair(size).WellFormed()
    ensures SameShape(LeafPair(8), LeafPair(size)) && Passes(LeafPair(size), [], 2)
  {
  }

  /** The proviso is needed: the pair reserved at 8 bytes each still passes when the first leaf
      has grown to 16 bytes, and then overlaps the second. */
  lemma UnreadLeafsAreNotChecked()
    ensures LeafPair(8).WellFormed() && LeafPair(16).WellFormed()
    ensures SafePlan(LeafPair(8), PAIR_PLAN) && Recorded(LeafPair(8), PAIR_PLAN, [])
    ensures SameShape(LeafPair(8), LeafPair(16)) && Passes(LeafPair(16), [], 2)
    ensures !SafePlan(LeafPair(16), PAIR_PLAN)
  {
    LeafPairWellFormed(8);
    LeafPairWellFormed(16);
    LeafPairFits();
    LeafPairPasses(16);
    assert BothGiven(LeafPair(16), 0, 1) && !Disjoint(LeafPair(16), PAIR_PLAN, 0, 1);
  }
}
