/** What a memory plan for a compute graph has to satisfy, and why that is enough: executing
    the nodes in order in the planned, reused memory computes the same values as executing
    them with a fresh cell for every tensor that is no view. */
module GraphPlan {
  import opened Wrappers

  /** `inplace` operations may take over a source's memory; `alias` operations (view, reshape,
      permute, transpose) compute nothing. */
  datatype Op = NoOp | Op(inplace: bool, alias: bool)

  /** `src` lists the sources that are not NULL.  `sizes[b]` is the allocation size in buffer
      type `b`; `len` the bytes the tensor's data really occupies. */
  datatype Tensor = Tensor(op: Op, src: seq<nat>, viewSrc: Option<nat>, viewOffs: nat, input: bool, output: bool,
                           external: bool, layout: nat, len: nat, sizes: seq<nat>)

  datatype Graph = Graph(tensors: seq<Tensor>, nodes: seq<nat>, leafs: seq<nat>, buffers: nat) {
    predicate InRange() {
      && (forall i :: 0 <= i < |nodes| ==> nodes[i] < |tensors|)
      && (forall i :: 0 <= i < |leafs| ==> leafs[i] < |tensors|)
      && (forall t, k :: 0 <= t < |tensors| && 0 <= k < |tensors[t].src| ==> tensors[t].src[k] < |tensors|)
      && (forall t :: 0 <= t < |tensors| && tensors[t].viewSrc.Some? ==> tensors[t].viewSrc.value < |tensors|)
    }

    predicate IsView(t: nat)
      requires t < |tensors|
    {
      tensors[t].viewSrc.Some?
    }

    /** The planner owns the memory of this tensor. */
    predicate Managed(t: nat)
      requires t < |tensors|
    {
      !IsView(t) && !tensors[t].external
    }

    function Root(t: nat): (r: nat)
      requires InRange() && t < |tensors|
      ensures r < |tensors|
    {
      if IsView(t) then tensors[t].viewSrc.value else t
    }

    /** Executing `t` writes memory: its own, or for a view (a copy, an in-place operation) the
        viewed part of its root's. */
    predicate Writes(t: nat)
      requires t < |tensors|
    {
      tensors[t].op.Op? && !(IsView(t) && tensors[t].op.alias)
    }

    function ViewStart(t: nat): nat
      requires t < |tensors|
    {
      if IsView(t) then tensors[t].viewOffs else 0
    }

    /** Leafs and input nodes: their value is there before the graph runs. */
    predicate Given(t: nat)
      requires t < |tensors|
    {
      (t in leafs || t in nodes) && !IsView(t) && tensors[t].op.NoOp?
    }

    predicate Present(t: nat, i: nat)
      requires t < |tensors| && i <= |nodes|
    {
      Given(t) || t in nodes[..i]
    }

    /** Node `j` reads `t`, directly or through a view of it. */
    predicate ReadsRoot(j: nat, t: nat)
      requires InRange() && j < |nodes|
    {
      exists k :: 0 <= k < |tensors[nodes[j]].src| && Root(tensors[nodes[j]].src[k]) == t
    }

    predicate Reads(j: nat, t: nat)
      requires j < |nodes| && nodes[j] < |tensors|
    {
      t in tensors[nodes[j]].src
    }

    /** No node reads `t` itself. */
    predicate Unread(t: nat)
      requires InRange()
    {
      forall j :: 0 <= j < |nodes| ==> !Reads(j, t)
    }

    /** Node `m` is a view of `t` that is there for the application only. */
    predicate UnreadView(m: nat, t: nat)
      requires InRange() && m < |nodes|
    {
      IsView(nodes[m]) && Root(nodes[m]) == t && tensors[nodes[m]].op.Op? && Unread(nodes[m])
    }

    predicate KeptForView(t: nat)
      requires InRange()
    {
      exists m :: 0 <= m < |nodes| && UnreadView(m, t)
    }

    predicate IsRead(t: nat)
      requires InRange()
    {
      exists j :: 0 <= j < |nodes| && ReadsRoot(j, t)
    }

    /** There to stay: an output, the root of a view that no node reads, or a tensor that is never
        read at all, directly or through a view. */
    predicate Keeps(t: nat)
      requires InRange() && t < |tensors|
    {
      tensors[t].output || KeptForView(t) || !IsRead(t)
    }

    /** There to stay, or still read by a node from `i` on. */
    predicate Needed(t: nat, i: nat)
      requires InRange() && t < |tensors|
    {
      Keeps(t) || exists j :: i <= j < |nodes| && ReadsRoot(j, t)
    }

    predicate SameNode(i: nat, j: nat)
      requires i < |nodes| && j < |nodes|
    {
      nodes[i] == nodes[j]
    }

    /** A leaf, or one of the first `i` nodes. */
    predicate Earlier(t: nat, i: nat)
      requires i <= |nodes|
    {
      t in leafs || t in nodes[..i]
    }

    ghost predicate NodeOk(i: nat)
      requires InRange() && i < |nodes|
    {
      var n := tensors[nodes[i]];
      && nodes[i] !in leafs
      && (n.input ==> n.op.NoOp?)
      && (IsView(nodes[i]) ==>
            var r := n.viewSrc.value;
            && !n.input && !IsView(r) && Earlier(r, i)
            && n.viewOffs + n.len <= tensors[r].len
            && (n.op.NoOp? ==> Unread(nodes[i])))
      && (!IsView(nodes[i]) && n.op.NoOp? ==> n.input || n.external)
    }

    ghost predicate SourceOk(i: nat, k: nat)
      requires InRange() && i < |nodes| && k < |tensors[nodes[i]].src|
    {
      Earlier(tensors[nodes[i]].src[k], i)
    }

    ghost predicate LeafOk(i: nat)
      requires InRange() && i < |leafs|
    {
      tensors[leafs[i]].op.NoOp? && !IsView(leafs[i])
    }

    /** The graphs the planner is meant for: nodes in topological order; inputs and leafs have
        no op; a view aliases a tensor that is no view itself, and one without an op only marks
        a dependency: it has sources, but nobody reads it. */
    ghost predicate WellFormed() {
      && InRange()
      && (forall i, j :: 0 <= i < |nodes| && 0 <= j < |nodes| && SameNode(i, j) ==> i == j)
      && (forall i :: 0 <= i < |leafs| ==> LeafOk(i))
      && (forall i :: 0 <= i < |nodes| ==> NodeOk(i))
      && (forall i, k :: 0 <= i < |nodes| && 0 <= k < |tensors[nodes[i]].src| ==> SourceOk(i, k))
      && (forall t :: 0 <= t < |tensors| ==> WellSized(t))
    }

    predicate WellSized(t: nat)
      requires t < |tensors|
    {
      && |tensors[t].sizes| == buffers
      && forall b :: 0 <= b < buffers ==> tensors[t].sizes[b] > 0 && tensors[t].len <= tensors[t].sizes[b]
    }
  }

  datatype Addr = Addr(buffer: nat, chunk: nat, offset: nat)

  type Plan = map<nat, Addr>

  predicate Apart(a: Addr, m: nat, b: Addr, n: nat) {
    a.buffer != b.buffer || a.chunk != b.chunk || a.offset + m <= b.offset || b.offset + n <= a.offset
  }

  ghost predicate Planned(g: Graph, plan: Plan) {
    forall t :: 0 <= t < |g.tensors| && (t in g.leafs || t in g.nodes) && g.Managed(t) ==>
      t in plan && plan[t].buffer < |g.tensors[t].sizes|
  }

  ghost predicate Disjoint(g: Graph, plan: Plan, t: nat, u: nat)
    requires t < |g.tensors| && u < |g.tensors|
  {
    t in plan && u in plan && plan[t].buffer < |g.tensors[t].sizes| && plan[u].buffer < |g.tensors[u].sizes|
    && Apart(plan[t], g.tensors[t].sizes[plan[t].buffer], plan[u], g.tensors[u].sizes[plan[u].buffer])
  }

  predicate BothGiven(g: Graph, t: nat, u: nat)
    requires g.InRange() && t < |g.tensors| && u < |g.tensors|
  {
    t != u && g.Given(t) && g.Given(u) && g.Managed(t) && g.Managed(u)
  }

  /** Node `i` writes planned memory while `t` is present and needed after it. */
  predicate MustSurvive(g: Graph, i: nat, t: nat)
    requires g.InRange() && i < |g.nodes| && t < |g.tensors|
  {
    && t != g.nodes[i]
    && g.Managed(g.nodes[i]) && !g.tensors[g.nodes[i]].op.NoOp?
    && g.Managed(t) && g.Present(t, i) && g.Needed(t, i + 1)
  }

  /** An in-place node may take over one source it reads for the last time, at its very address. */
  predicate TakenOver(g: Graph, plan: Plan, i: nat, s: nat)
    requires g.InRange() && i < |g.nodes| && s < |g.tensors|
  {
    && AtSource(g, plan, g.nodes[i], s)
    && !g.tensors[s].output && !g.Needed(s, i + 1)
  }

  /** Node `n` works in place on source `s`. */
  predicate AtSource(g: Graph, plan: Plan, n: nat, s: nat)
    requires n < |g.tensors| && s < |g.tensors|
  {
    && g.tensors[n].op.Op? && g.tensors[n].op.inplace && g.Managed(n) && g.Managed(s)
    && n in plan && s in plan && plan[n] == plan[s]
  }

  /** Node `i` reads managed memory, behind source `k`, while it writes memory of its own. */
  predicate ReadsWhileWriting(g: Graph, i: nat, k: nat)
    requires g.InRange() && i < |g.nodes| && k < |g.tensors[g.nodes[i]].src|
  {
    && g.Managed(g.nodes[i]) && g.tensors[g.nodes[i]].op.Op?
    && g.Managed(g.Root(g.tensors[g.nodes[i]].src[k]))
  }

  ghost predicate SourceApart(g: Graph, plan: Plan, i: nat, k: nat)
    requires g.InRange() && i < |g.nodes| && k < |g.tensors[g.nodes[i]].src|
  {
    var s := g.tensors[g.nodes[i]].src[k];
    Disjoint(g, plan, g.nodes[i], g.Root(s)) || TakenOver(g, plan, i, s)
  }

  /** The planner's promise.  Tensors given at the start never overlap; the memory a node writes
      overlaps no tensor whose value is present and still needed after that node, nor any of the
      node's own sources but the one it takes over. */
  ghost predicate SafePlan(g: Graph, plan: Plan)
    requires g.InRange()
  {
    && Planned(g, plan)
    && (forall t, u :: 0 <= t < |g.tensors| && 0 <= u < |g.tensors| && BothGiven(g, t, u) ==> Disjoint(g, plan, t, u))
    && (forall i, t :: 0 <= i < |g.nodes| && 0 <= t < |g.tensors| && MustSurvive(g, i, t) ==>
          Disjoint(g, plan, g.nodes[i], t))
    && (forall i, k :: 0 <= i < |g.nodes| && 0 <= k < |g.tensors[g.nodes[i]].src| && ReadsWhileWriting(g, i, k) ==>
          SourceApart(g, plan, i, k))
  }

  // ---- execution with a fresh cell for every tensor that is no view ----

  type Value = seq<int>
  type Semantics = (nat, seq<Value>) -> Value

  function Fit(v: Value, len: nat): (r: Value)
    ensures |r| == len
  {
    seq(len, k requires 0 <= k < len => if k < |v| then v[k] else 0)
  }

  ghost predicate ValidValues(g: Graph, vals: seq<Value>) {
    |vals| == |g.tensors| && forall t :: 0 <= t < |vals| ==> |vals[t]| == g.tensors[t].len
  }

  /** The result of the op of tensor `n` on argument values. */
  function Apply(g: Graph, sem: Semantics, n: nat, args: seq<Value>): (v: Value)
    requires n < |g.tensors|
    ensures |v| == g.tensors[n].len
  {
    Fit(sem(n, args), g.tensors[n].len)
  }

  /** Bytes `offs..offs + len` of a value. */
  function Slice(v: Value, offs: nat, len: nat): (r: Value)
    ensures |r| == len
    ensures offs + len <= |v| ==> r == v[offs..offs + len]
  {
    seq(len, k requires 0 <= k < len => if offs + k < |v| then v[offs + k] else 0)
  }

  /** Value `v` with `w` written over it from `offs` on. */
  function Splice(v: Value, offs: nat, w: Value): (r: Value)
    ensures |r| == |v|
    ensures offs == 0 && |w| == |v| ==> r == w
  {
    seq(|v|, k requires 0 <= k < |v| => if offs <= k < offs + |w| then w[k - offs] else v[k])
  }

  function ViewOf(g: Graph, t: nat, v: Value): Value
    requires t < |g.tensors|
  {
    Slice(v, g.tensors[t].viewOffs, g.tensors[t].len)
  }

  /** A view's value is what its part of the root's cell holds at the time. */
  function ValueOf(g: Graph, vals: seq<Value>, t: nat): Value
    requires g.InRange() && t < |g.tensors| == |vals|
  {
    if g.IsView(t) then ViewOf(g, t, vals[g.Root(t)]) else vals[t]
  }

  function Args(g: Graph, vals: seq<Value>, src: seq<nat>): seq<Value>
    requires g.InRange() && |vals| == |g.tensors|
    requires forall k :: 0 <= k < |src| ==> src[k] < |vals|
  {
    seq(|src|, k requires 0 <= k < |src| => ValueOf(g, vals, src[k]))
  }

  /** Value `v` of node `n` written into its root's cell, which held `was`. */
  function Written(g: Graph, n: nat, was: Value, v: Value): Value
    requires n < |g.tensors|
  {
    if g.IsView(n) then Splice(was, g.ViewStart(n), v) else v
  }

  function PureStep(g: Graph, sem: Semantics, vals: seq<Value>, i: nat): (r: seq<Value>)
    requires g.InRange() && i < |g.nodes| && |vals| == |g.tensors|
    ensures |r| == |vals|
  {
    var n := g.nodes[i];
    if !g.Writes(n) then vals
    else vals[g.Root(n) := Written(g, n, vals[g.Root(n)], Apply(g, sem, n, Args(g, vals, g.tensors[n].src)))]
  }

  function PureRun(g: Graph, sem: Semantics, init: seq<Value>, i: nat): (r: seq<Value>)
    requires g.InRange() && i <= |g.nodes| && |init| == |g.tensors|
    ensures |r| == |init|
  {
    if i == 0 then init else PureStep(g, sem, PureRun(g, sem, init, i - 1), i - 1)
  }

  // ---- execution in planned memory ----

  type Bytes = Addr -> int

  /** Managed tensors live in `bytes` at their planned address; tensors whose data was set by
      the application keep storage of their own. */
  datatype Memory = Memory(bytes: Bytes, own: seq<Value>)

  function At(a: Addr, k: nat): Addr { Addr(a.buffer, a.chunk, a.offset + k) }

  function Load(bytes: Bytes, a: Addr, len: nat): (v: Value)
    ensures |v| == len
  {
    seq(len, k requires 0 <= k < len => bytes(At(a, k)))
  }

  function Store(bytes: Bytes, a: Addr, v: Value): Bytes {
    (x: Addr) => if x.buffer == a.buffer && x.chunk == a.chunk && a.offset <= x.offset < a.offset + |v|
         then v[x.offset - a.offset] else bytes(x)
  }

  lemma StoreLoads(bytes: Bytes, a: Addr, v: Value)
    ensures Load(Store(bytes, a, v), a, |v|) == v
  {
    forall k | 0 <= k < |v| ensures Store(bytes, a, v)(At(a, k)) == v[k] {
    }
  }

  lemma StoreInside(bytes: Bytes, a: Addr, offs: nat, v: Value, len: nat)
    ensures Load(Store(bytes, At(a, offs), v), a, len) == Splice(Load(bytes, a, len), offs, v)
  {
    forall k | 0 <= k < len
      ensures Store(bytes, At(a, offs), v)(At(a, k)) == if offs <= k < offs + |v| then v[k - offs] else bytes(At(a, k))
    {
    }
  }

  lemma StoreElsewhere(bytes: Bytes, a: Addr, v: Value, b: Addr, len: nat)
    requires Apart(a, |v|, b, len)
    ensures Load(Store(bytes, a, v), b, len) == Load(bytes, b, len)
  {
    forall k | 0 <= k < len ensures Store(bytes, a, v)(At(b, k)) == bytes(At(b, k)) {
    }
  }

  function FetchRoot(g: Graph, plan: Plan, m: Memory, t: nat): Value
    requires t < |g.tensors| && |m.own| == |g.tensors|
  {
    if t in plan && !g.tensors[t].external then Load(m.bytes, plan[t], g.tensors[t].len) else m.own[t]
  }

  /** Read a tensor's value: a view reads inside its root's storage. */
  function Fetch(g: Graph, plan: Plan, m: Memory, t: nat): Value
    requires g.InRange() && t < |g.tensors| && |m.own| == |g.tensors|
  {
    if g.IsView(t) then ViewOf(g, t, FetchRoot(g, plan, m, g.Root(t))) else FetchRoot(g, plan, m, t)
  }

  /** What a node has left in the memory it writes when it reads its sources: anything. */
  type Scratch = nat -> Value

  /** A source that is read before anything is written over it: the one an in-place node takes over,
      and for a node that writes through a view whatever lies in the viewed tensor. */
  predicate ReadFirst(g: Graph, plan: Plan, n: nat, s: nat)
    requires g.InRange() && n < |g.tensors| && s < |g.tensors|
  {
    if g.IsView(n) then g.Root(s) == g.Root(n) else AtSource(g, plan, n, s)
  }

  /** The arguments of node `n`: `busy` is memory while the node is at work, `m` before. */
  function FetchArgs(g: Graph, plan: Plan, m: Memory, busy: Memory, n: nat): seq<Value>
    requires g.InRange() && n < |g.tensors| && |m.own| == |busy.own| == |g.tensors|
  {
    var src := g.tensors[n].src;
    seq(|src|, k requires 0 <= k < |src| => Fetch(g, plan, if ReadFirst(g, plan, n, src[k]) then m else busy, src[k]))
  }

  /** Write value `v` of node `n` where it belongs. */
  function WriteNode(g: Graph, plan: Plan, m: Memory, n: nat, v: Value): (r: Memory)
    requires g.InRange() && n < |g.tensors| && |m.own| == |g.tensors|
    ensures |r.own| == |m.own|
  {
    var r := g.Root(n);
    if r in plan && !g.tensors[r].external then m.(bytes := Store(m.bytes, At(plan[r], g.ViewStart(n)), v))
    else m.(own := m.own[r := Written(g, n, m.own[r], v)])
  }

  /** Memory while node `n` is at work. */
  function Busy(g: Graph, plan: Plan, scratch: Scratch, m: Memory, n: nat): (r: Memory)
    requires g.InRange() && n < |g.tensors| && |m.own| == |g.tensors|
    ensures |r.own| == |m.own|
  {
    WriteNode(g, plan, m, n, Fit(scratch(n), g.tensors[n].len))
  }

  function MemStep(g: Graph, plan: Plan, sem: Semantics, scratch: Scratch, m: Memory, i: nat): (r: Memory)
    requires g.InRange() && i < |g.nodes| && |m.own| == |g.tensors|
    ensures |r.own| == |m.own|
  {
    var n := g.nodes[i];
    if !g.Writes(n) then m
    else
      var busy := Busy(g, plan, scratch, m, n);
      WriteNode(g, plan, busy, n, Apply(g, sem, n, FetchArgs(g, plan, m, busy, n)))
  }

  function MemRun(g: Graph, plan: Plan, sem: Semantics, scratch: Scratch, m: Memory, i: nat): (r: Memory)
    requires g.InRange() && i <= |g.nodes| && |m.own| == |g.tensors|
    ensures |r.own| == |m.own|
  {
    if i == 0 then m else MemStep(g, plan, sem, scratch, MemRun(g, plan, sem, scratch, m, i - 1), i - 1)
  }

  // ---- the application fills in the given tensors ----

  ghost predicate HoldsGivens(g: Graph, plan: Plan, m: Memory, init: seq<Value>)
    requires g.InRange() && |m.own| == |init| == |g.tensors|
  {
    forall t :: 0 <= t < |g.tensors| && g.Given(t) ==> FetchRoot(g, plan, m, t) == init[t]
  }

  /** Write the values of the managed given tensors below `n`, one after the other. */
  function Fill(g: Graph, plan: Plan, bytes: Bytes, init: seq<Value>, n: nat): Bytes
    requires n <= |g.tensors| && |init| == |g.tensors|
  {
    if n == 0 then bytes
    else
      var b := Fill(g, plan, bytes, init, n - 1);
      if g.Given(n - 1) && g.Managed(n - 1) && n - 1 in plan then Store(b, plan[n - 1], init[n - 1]) else b
  }

  lemma {:induction false} FillHolds(g: Graph, plan: Plan, bytes: Bytes, init: seq<Value>, n: nat, t: nat)
    requires g.WellFormed() && SafePlan(g, plan) && t < n <= |g.tensors| && ValidValues(g, init)
    requires g.Given(t) && g.Managed(t)
    ensures t in plan && Load(Fill(g, plan, bytes, init, n), plan[t], g.tensors[t].len) == init[t]
  {
    var b := Fill(g, plan, bytes, init, n - 1);
    if t == n - 1 {
      StoreLoads(b, plan[t], init[t]);
    } else {
      FillHolds(g, plan, bytes, init, n - 1, t);
      if g.Given(n - 1) && g.Managed(n - 1) {
        assert BothGiven(g, n - 1, t);
        assert Disjoint(g, plan, n - 1, t);
        assert g.WellSized(n - 1) && g.WellSized(t);
        StoreElsewhere(b, plan[n - 1], init[n - 1], plan[t], g.tensors[t].len);
      }
    }
  }

  /** All inputs can be set before the graph runs: none overwrites another. */
  lemma InputsCanBeSet(g: Graph, plan: Plan, bytes: Bytes, init: seq<Value>)
    requires g.WellFormed() && SafePlan(g, plan) && ValidValues(g, init)
    ensures HoldsGivens(g, plan, Memory(Fill(g, plan, bytes, init, |g.tensors|), init), init)
  {
    var m := Memory(Fill(g, plan, bytes, init, |g.tensors|), init);
    forall t | 0 <= t < |g.tensors| && g.Given(t) ensures FetchRoot(g, plan, m, t) == init[t] {
      if g.Managed(t) {
        FillHolds(g, plan, bytes, init, |g.tensors|, t);
      }
    }
  }

  // ---- planned execution is pure execution ----

  lemma EarlierInGraph(g: Graph, t: nat, i: nat)
    requires i <= |g.nodes| && g.Earlier(t, i)
    ensures t in g.leafs || t in g.nodes
  {
  }

  lemma LeafGiven(g: Graph, t: nat)
    requires g.WellFormed() && t in g.leafs
    ensures t < |g.tensors| && g.Given(t)
  {
    var i :| 0 <= i < |g.leafs| && g.leafs[i] == t;
    assert g.LeafOk(i);
  }

  /** Whatever is a leaf or an earlier node is present; a view is an earlier node. */
  lemma EarlierPresent(g: Graph, t: nat, i: nat)
    requires g.WellFormed() && i <= |g.nodes| && g.Earlier(t, i)
    ensures t < |g.tensors| && g.Present(t, i)
    ensures g.IsView(t) ==> exists j :: 0 <= j < i && g.nodes[j] == t
  {
    if t in g.leafs {
      LeafGiven(g, t);
    } else {
      var j :| 0 <= j < i && g.nodes[..i][j] == t;
      assert g.nodes[j] == t;
    }
  }

  lemma EarlierMonotone(g: Graph, t: nat, i: nat, m: nat)
    requires i <= m <= |g.nodes| && g.Earlier(t, i)
    ensures g.Earlier(t, m)
  {
    if t !in g.leafs {
      var j :| 0 <= j < i && g.nodes[..i][j] == t;
      assert g.nodes[..m][j] == t;
    }
  }

  lemma LaterNodesDiffer(g: Graph, i: nat, t: nat)
    requires g.WellFormed() && i < |g.nodes| && g.Earlier(t, i)
    ensures t != g.nodes[i]
  {
    assert g.NodeOk(i);
    if t !in g.leafs {
      var j :| 0 <= j < i && g.nodes[..i][j] == t;
      assert !g.SameNode(j, i);
    }
  }

  /** Before node `i`: every present tensor that is still needed (or keeps its own storage)
      holds its pure value. */
  ghost predicate Faithful(g: Graph, plan: Plan, m: Memory, vals: seq<Value>, i: nat)
    requires g.InRange() && i <= |g.nodes| && |m.own| == |vals| == |g.tensors|
  {
    forall t :: 0 <= t < |g.tensors| && Watched(g, t, i) ==> FetchRoot(g, plan, m, t) == vals[t]
  }

  predicate Watched(g: Graph, t: nat, i: nat)
    requires g.InRange() && i <= |g.nodes| && t < |g.tensors|
  {
    !g.IsView(t) && g.Present(t, i) && (g.tensors[t].external || g.Needed(t, i))
  }

  /** The root of a view node is there, and stays. */
  lemma RootEarlier(g: Graph, j: nat, i: nat)
    requires g.WellFormed() && j < |g.nodes| && j <= i <= |g.nodes| && g.IsView(g.nodes[j])
    ensures var r := g.Root(g.nodes[j]); !g.IsView(r) && g.Earlier(r, i) && g.Present(r, i)
  {
    assert g.NodeOk(j);
    EarlierMonotone(g, g.Root(g.nodes[j]), j, i);
    EarlierPresent(g, g.Root(g.nodes[j]), i);
  }

  lemma SourceIsThere(g: Graph, i: nat, k: nat)
    requires g.WellFormed() && i < |g.nodes| && k < |g.tensors[g.nodes[i]].src|
    ensures var s := g.tensors[g.nodes[i]].src[k]; var r := g.Root(s);
            g.Present(s, i) && !g.IsView(r) && g.Present(r, i) && g.Needed(r, i) && Watched(g, r, i)
  {
    var s := g.tensors[g.nodes[i]].src[k];
    assert g.SourceOk(i, k);
    EarlierPresent(g, s, i);
    assert g.ReadsRoot(i, g.Root(s));
    if g.IsView(s) {
      var j :| 0 <= j < i && g.nodes[j] == s;
      RootEarlier(g, j, i);
    }
  }

  /** Every source of node `i` reads its true value in planned memory. */
  lemma SourceReads(g: Graph, plan: Plan, m: Memory, vals: seq<Value>, i: nat, k: nat)
    requires g.WellFormed() && i < |g.nodes| && |m.own| == |vals| == |g.tensors|
    requires Faithful(g, plan, m, vals, i) && k < |g.tensors[g.nodes[i]].src|
    ensures Fetch(g, plan, m, g.tensors[g.nodes[i]].src[k]) == ValueOf(g, vals, g.tensors[g.nodes[i]].src[k])
  {
    SourceIsThere(g, i, k);
  }

  lemma NeededBefore(g: Graph, t: nat, j: nat, i: nat)
    requires g.InRange() && t < |g.tensors| && j <= i && g.Needed(t, i)
    ensures g.Needed(t, j)
  {
    if !g.Keeps(t) {
      var k :| i <= k < |g.nodes| && g.ReadsRoot(k, t);
    }
  }

  lemma WatchedEarlier(g: Graph, t: nat, i: nat)
    requires g.InRange() && i < |g.nodes| && t < |g.tensors| && Watched(g, t, i + 1)
    requires t == g.nodes[i] ==> g.tensors[t].op.NoOp?
    ensures Watched(g, t, i)
  {
    if t == g.nodes[i] {
      assert g.Given(t);
    } else {
      assert g.nodes[..i + 1] == g.nodes[..i] + [g.nodes[i]];
    }
    if g.Needed(t, i + 1) { NeededBefore(g, t, i, i + 1); }
  }

  /** The root of a view with an op is needed when the view is executed. */
  lemma ViewKeepsRoot(g: Graph, i: nat)
    requires g.WellFormed() && i < |g.nodes| && g.IsView(g.nodes[i]) && g.tensors[g.nodes[i]].op.Op?
    ensures g.Needed(g.Root(g.nodes[i]), i)
  {
    var n := g.nodes[i];
    if g.Unread(n) {
      assert g.UnreadView(i, g.Root(n));
    } else {
      var j :| 0 <= j < |g.nodes| && g.Reads(j, n);
      var k :| 0 <= k < |g.tensors[g.nodes[j]].src| && g.tensors[g.nodes[j]].src[k] == n;
      assert g.NodeOk(i) && g.SourceOk(j, k);
      var a :| 0 <= a < j && g.nodes[..j][a] == n;
      assert g.SameNode(a, i);
      assert g.ReadsRoot(j, g.Root(n));
    }
  }

  lemma DisjointBack(g: Graph, plan: Plan, t: nat, u: nat)
    requires t < |g.tensors| && u < |g.tensors| && Disjoint(g, plan, t, u)
    ensures Disjoint(g, plan, u, t)
  {
  }

  /** Two tensors that are both present and still needed lie apart: the later one was written
      when the other had to survive. */
  lemma LiveApart(g: Graph, plan: Plan, t: nat, u: nat, i: nat)
    requires g.WellFormed() && SafePlan(g, plan) && i <= |g.nodes| && t < |g.tensors| && u < |g.tensors| && t != u
    requires g.Managed(t) && g.Managed(u) && g.Present(t, i) && g.Present(u, i) && g.Needed(t, i) && g.Needed(u, i)
    ensures Disjoint(g, plan, t, u)
  {
    if g.Given(t) && g.Given(u) {
      assert BothGiven(g, t, u);
    } else if g.Given(t) {
      var b :| 0 <= b < i && g.nodes[..i][b] == u;
      LaterApart(g, plan, t, u, b, i);
    } else {
      var a :| 0 <= a < i && g.nodes[..i][a] == t;
      if !g.Given(u) {
        var b :| 0 <= b < i && g.nodes[..i][b] == u;
        if a < b {
          assert g.nodes[..b][a] == t;
          LaterApart(g, plan, t, u, b, i);
        } else {
          assert g.nodes[..a][b] == u;
          LaterApart(g, plan, u, t, a, i);
        }
      } else {
        LaterApart(g, plan, u, t, a, i);
      }
    }
  }

  lemma LaterApart(g: Graph, plan: Plan, t: nat, u: nat, b: nat, i: nat)
    requires g.InRange() && SafePlan(g, plan) && b < i <= |g.nodes| && t < |g.tensors| && u < |g.tensors| && t != u
    requires g.nodes[b] == u && !g.Given(u) && g.Managed(t) && g.Managed(u) && g.Present(t, b) && g.Needed(t, i)
    ensures Disjoint(g, plan, t, u) && Disjoint(g, plan, u, t)
  {
    NeededBefore(g, t, b + 1, i);
    assert u in g.nodes;
    assert MustSurvive(g, b, t);
    DisjointBack(g, plan, u, t);
  }

  /** Where node `i` writes, wherever that is, and where a watched tensor lies. */
  lemma WriteMisses(g: Graph, plan: Plan, m: Memory, v: Value, i: nat, t: nat)
    requires g.WellFormed() && SafePlan(g, plan) && i < |g.nodes| && |m.own| == |g.tensors| && t < |g.tensors|
    requires g.Writes(g.nodes[i]) && |v| == g.tensors[g.nodes[i]].len && t != g.Root(g.nodes[i])
    requires !g.IsView(t) && g.Present(t, i) && (g.tensors[t].external || g.Needed(t, i + 1))
    ensures FetchRoot(g, plan, WriteNode(g, plan, m, g.nodes[i], v), t) == FetchRoot(g, plan, m, t)
  {
    var n := g.nodes[i];
    if g.Managed(t) && g.Managed(g.Root(n)) {
      if g.IsView(n) {
        NeededBefore(g, t, i, i + 1);
        ViewMisses(g, plan, m, v, i, t);
      } else {
        assert MustSurvive(g, i, t);
        NodeMissesTensor(g, plan, m, v, i, t);
        assert At(plan[n], 0) == plan[n];
      }
    } else if g.IsView(n) {
      RootEarlier(g, i, i);
    }
  }

  lemma ViewMisses(g: Graph, plan: Plan, m: Memory, v: Value, i: nat, t: nat)
    requires g.WellFormed() && SafePlan(g, plan) && i < |g.nodes| && t < |g.tensors| && t != g.Root(g.nodes[i])
    requires g.IsView(g.nodes[i]) && g.tensors[g.nodes[i]].op.Op? && |v| == g.tensors[g.nodes[i]].len
    requires g.Managed(t) && g.Managed(g.Root(g.nodes[i])) && g.Present(t, i) && g.Needed(t, i)
    ensures var n := g.nodes[i]; var r := g.Root(n);
            r in plan && t in plan && Load(Store(m.bytes, At(plan[r], g.ViewStart(n)), v), plan[t], g.tensors[t].len)
                                      == Load(m.bytes, plan[t], g.tensors[t].len)
  {
    var n, r := g.nodes[i], g.Root(g.nodes[i]);
    RootEarlier(g, i, i);
    ViewKeepsRoot(g, i);
    LiveApart(g, plan, r, t, i);
    assert g.NodeOk(i) && g.WellSized(r) && g.WellSized(t);
    StoreElsewhere(m.bytes, At(plan[r], g.ViewStart(n)), v, plan[t], g.tensors[t].len);
  }

  /** The tensor a node writes into has its new value. */
  lemma RootIsWritten(g: Graph, plan: Plan, m: Memory, was: Value, n: nat, v: Value)
    requires g.InRange() && n < |g.tensors| && |m.own| == |g.tensors| && |v| == g.tensors[n].len
    requires g.IsView(n) ==> FetchRoot(g, plan, m, g.Root(n)) == was
    ensures var r := g.Root(n); FetchRoot(g, plan, WriteNode(g, plan, m, n, v), r) == Written(g, n, was, v)
  {
    var r := g.Root(n);
    if r in plan && !g.tensors[r].external {
      StoreInside(m.bytes, plan[r], g.ViewStart(n), v, g.tensors[r].len);
    }
  }

  lemma WrittenTwice(g: Graph, n: nat, was: Value, u: Value, v: Value)
    requires n < |g.tensors| && |u| == |v|
    ensures Written(g, n, Written(g, n, was, u), v) == Written(g, n, was, v)
  {
  }

  /** While node `i` is at work, a source it does not read first is still as it was. */
  lemma BusyKeepsSource(g: Graph, plan: Plan, m: Memory, v: Value, i: nat, k: nat)
    requires g.WellFormed() && SafePlan(g, plan) && i < |g.nodes| && |m.own| == |g.tensors|
    requires k < |g.tensors[g.nodes[i]].src| && !ReadFirst(g, plan, g.nodes[i], g.tensors[g.nodes[i]].src[k])
    requires g.Writes(g.nodes[i]) && |v| == g.tensors[g.nodes[i]].len
    ensures var r := g.Root(g.tensors[g.nodes[i]].src[k]);
            FetchRoot(g, plan, WriteNode(g, plan, m, g.nodes[i], v), r) == FetchRoot(g, plan, m, r)
  {
    var n := g.nodes[i];
    var s := g.tensors[n].src[k];
    var r := g.Root(s);
    SourceIsThere(g, i, k);
    if g.IsView(n) {
      RootEarlier(g, i, i);
      if g.Managed(r) && g.Managed(g.Root(n)) { ViewMisses(g, plan, m, v, i, r); }
    } else {
      SourceDiffers(g, i, k);
      if g.Managed(r) && g.Managed(n) {
        assert ReadsWhileWriting(g, i, k);
        assert SourceApart(g, plan, i, k);
        assert g.WellSized(n) && g.WellSized(r) && At(plan[n], 0) == plan[n];
        StoreElsewhere(m.bytes, plan[n], v, plan[r], g.tensors[r].len);
      }
    }
  }

  lemma SourceDiffers(g: Graph, i: nat, k: nat)
    requires g.WellFormed() && i < |g.nodes| && k < |g.tensors[g.nodes[i]].src|
    ensures var s := g.tensors[g.nodes[i]].src[k]; s != g.nodes[i] && g.Root(s) != g.nodes[i]
  {
    var s := g.tensors[g.nodes[i]].src[k];
    assert g.SourceOk(i, k);
    LaterNodesDiffer(g, i, s);
    EarlierPresent(g, s, i);
    if g.IsView(s) {
      var j :| 0 <= j < i && g.nodes[j] == s;
      RootEarlier(g, j, i);
      LaterNodesDiffer(g, i, g.Root(s));
    }
  }

  /** An in-place node takes over one source only. */
  lemma OneTakenOver(g: Graph, plan: Plan, i: nat, k: nat, l: nat)
    requires g.WellFormed() && SafePlan(g, plan) && i < |g.nodes|
    requires k < |g.tensors[g.nodes[i]].src| && l < |g.tensors[g.nodes[i]].src|
    requires TakenOver(g, plan, i, g.tensors[g.nodes[i]].src[k]) && TakenOver(g, plan, i, g.tensors[g.nodes[i]].src[l])
    ensures g.tensors[g.nodes[i]].src[k] == g.tensors[g.nodes[i]].src[l]
  {
    var s, u := g.tensors[g.nodes[i]].src[k], g.tensors[g.nodes[i]].src[l];
    SourceIsThere(g, i, k);
    SourceIsThere(g, i, l);
    assert g.WellSized(s) && g.WellSized(u);
    if s != u { LiveApart(g, plan, s, u, i); }
  }

  lemma ArgsAgree(g: Graph, plan: Plan, scratch: Scratch, m: Memory, vals: seq<Value>, i: nat)
    requires g.WellFormed() && SafePlan(g, plan) && i < |g.nodes| && |m.own| == |vals| == |g.tensors|
    requires Faithful(g, plan, m, vals, i) && g.Writes(g.nodes[i])
    ensures var n := g.nodes[i];
            FetchArgs(g, plan, m, Busy(g, plan, scratch, m, n), n) == Args(g, vals, g.tensors[n].src)
  {
    var n := g.nodes[i];
    var src, busy := g.tensors[n].src, Busy(g, plan, scratch, m, n);
    forall k | 0 <= k < |src| ensures FetchArgs(g, plan, m, busy, n)[k] == Args(g, vals, src)[k] {
      SourceReads(g, plan, m, vals, i, k);
      if !ReadFirst(g, plan, n, src[k]) {
        BusyKeepsSource(g, plan, m, Fit(scratch(n), g.tensors[n].len), i, k);
      }
    }
  }

  lemma TensorSurvives(g: Graph, plan: Plan, sem: Semantics, scratch: Scratch, m: Memory, vals: seq<Value>, i: nat, t: nat)
    requires g.WellFormed() && SafePlan(g, plan) && i < |g.nodes| && |m.own| == |vals| == |g.tensors|
    requires Faithful(g, plan, m, vals, i) && t < |g.tensors| && Watched(g, t, i + 1)
    ensures FetchRoot(g, plan, MemStep(g, plan, sem, scratch, m, i), t) == PureStep(g, sem, vals, i)[t]
  {
    var n := g.nodes[i];
    hide FetchRoot, WriteNode, Apply, FetchArgs, Args, Written, SafePlan;
    if t != n || g.tensors[n].op.NoOp? {
      WatchedEarlier(g, t, i);
    }
    if g.Writes(n) {
      ArgsAgree(g, plan, scratch, m, vals, i);
      var busy := Busy(g, plan, scratch, m, n);
      var u, v := Fit(scratch(n), g.tensors[n].len), Apply(g, sem, n, Args(g, vals, g.tensors[n].src));
      if t == g.Root(n) {
        RootIsWritten(g, plan, m, vals[t], n, u);
        RootIsWritten(g, plan, busy, Written(g, n, vals[t], u), n, v);
        WrittenTwice(g, n, vals[t], u, v);
      } else {
        WriteMisses(g, plan, m, u, i, t);
        WriteMisses(g, plan, busy, v, i, t);
      }
    }
  }

  lemma NodeMissesTensor(g: Graph, plan: Plan, m: Memory, v: Value, i: nat, t: nat)
    requires g.WellFormed() && SafePlan(g, plan) && i < |g.nodes|
    requires t < |g.tensors| && MustSurvive(g, i, t) && |v| == g.tensors[g.nodes[i]].len
    ensures g.nodes[i] in plan && t in plan
    ensures Load(Store(m.bytes, plan[g.nodes[i]], v), plan[t], g.tensors[t].len) == Load(m.bytes, plan[t], g.tensors[t].len)
  {
    var n := g.nodes[i];
    assert Disjoint(g, plan, n, t);
    assert g.WellSized(n) && g.WellSized(t);
    StoreElsewhere(m.bytes, plan[n], v, plan[t], g.tensors[t].len);
  }

  lemma StartAgrees(g: Graph, plan: Plan, m: Memory, init: seq<Value>)
    requires g.WellFormed() && |m.own| == |init| == |g.tensors| && HoldsGivens(g, plan, m, init)
    ensures Faithful(g, plan, m, init, 0)
  {
    forall t | 0 <= t < |g.tensors| && Watched(g, t, 0) ensures FetchRoot(g, plan, m, t) == init[t] {
      assert g.Given(t);
    }
  }

  lemma StepAgrees(g: Graph, plan: Plan, sem: Semantics, scratch: Scratch, m: Memory, vals: seq<Value>, i: nat)
    requires g.WellFormed() && SafePlan(g, plan) && i < |g.nodes| && |m.own| == |vals| == |g.tensors|
    requires Faithful(g, plan, m, vals, i)
    ensures Faithful(g, plan, MemStep(g, plan, sem, scratch, m, i), PureStep(g, sem, vals, i), i + 1)
  {
    forall t | 0 <= t < |g.tensors| && Watched(g, t, i + 1)
      ensures FetchRoot(g, plan, MemStep(g, plan, sem, scratch, m, i), t) == PureStep(g, sem, vals, i)[t]
    {
      TensorSurvives(g, plan, sem, scratch, m, vals, i, t);
    }
  }

  /** Refinement, over the whole run, from every start in which the application has set the given
      tensors and whatever nodes leave in their memory while they still read: planned memory
      follows pure execution. */
  lemma {:induction false} RunAgrees(g: Graph, plan: Plan, sem: Semantics, scratch: Scratch, m: Memory, init: seq<Value>, i: nat)
    requires g.WellFormed() && SafePlan(g, plan) && |m.own| == |init| == |g.tensors|
    requires HoldsGivens(g, plan, m, init) && i <= |g.nodes|
    ensures Faithful(g, plan, MemRun(g, plan, sem, scratch, m, i), PureRun(g, sem, init, i), i)
  {
    hide SafePlan, HoldsGivens, Faithful, MemStep, PureStep;
    if i == 0 {
      StartAgrees(g, plan, m, init);
    } else {
      RunAgrees(g, plan, sem, scratch, m, init, i - 1);
      StepAgrees(g, plan, sem, scratch, MemRun(g, plan, sem, scratch, m, i - 1), PureRun(g, sem, init, i - 1), i - 1);
    }
  }

  /** Under a safe plan, every source read by every node is the value the graph means. */
  lemma SourcesAreTrue(g: Graph, plan: Plan, sem: Semantics, scratch: Scratch, m: Memory, init: seq<Value>, i: nat, k: nat)
    requires g.WellFormed() && SafePlan(g, plan) && |m.own| == |init| == |g.tensors|
    requires HoldsGivens(g, plan, m, init) && i < |g.nodes| && k < |g.tensors[g.nodes[i]].src|
    ensures var s := g.tensors[g.nodes[i]].src[k];
            Fetch(g, plan, MemRun(g, plan, sem, scratch, m, i), s) == ValueOf(g, PureRun(g, sem, init, i), s)
  {
    RunAgrees(g, plan, sem, scratch, m, init, i);
    SourceReads(g, plan, MemRun(g, plan, sem, scratch, m, i), PureRun(g, sem, init, i), i, k);
  }

  /** Under a safe plan, at the end every tensor that is there to stay holds its pure value, and so
      does every view of one. */
  lemma KeptIsTrue(g: Graph, plan: Plan, sem: Semantics, scratch: Scratch, m: Memory, init: seq<Value>, t: nat)
    requires g.WellFormed() && SafePlan(g, plan) && |m.own| == |init| == |g.tensors|
    requires HoldsGivens(g, plan, m, init)
    requires t < |g.tensors| && g.Keeps(g.Root(t)) && (t in g.leafs || t in g.nodes)
    ensures Fetch(g, plan, MemRun(g, plan, sem, scratch, m, |g.nodes|), t) == ValueOf(g, PureRun(g, sem, init, |g.nodes|), t)
  {
    RunAgrees(g, plan, sem, scratch, m, init, |g.nodes|);
    assert g.nodes[..|g.nodes|] == g.nodes;
    if t in g.leafs { LeafGiven(g, t); }
    if g.IsView(t) {
      var j :| 0 <= j < |g.nodes| && g.nodes[j] == t;
      RootEarlier(g, j, |g.nodes|);
    }
    assert Watched(g, g.Root(t), |g.nodes|);
  }

  /** So outputs do; one that is a view, if no node reads it. */
  lemma OutputsAreTrue(g: Graph, plan: Plan, sem: Semantics, scratch: Scratch, m: Memory, init: seq<Value>, t: nat)
    requires g.WellFormed() && SafePlan(g, plan) && |m.own| == |init| == |g.tensors|
    requires HoldsGivens(g, plan, m, init)
    requires t < |g.tensors| && g.tensors[t].output && (t in g.leafs || t in g.nodes)
    requires g.IsView(t) ==> g.tensors[t].op.Op? && g.Unread(t)
    ensures Fetch(g, plan, MemRun(g, plan, sem, scratch, m, |g.nodes|), t) == ValueOf(g, PureRun(g, sem, init, |g.nodes|), t)
  {
    if g.IsView(t) {
      if t in g.leafs { LeafGiven(g, t); }
      var j :| 0 <= j < |g.nodes| && g.nodes[j] == t;
      assert g.UnreadView(j, g.Root(t));
    }
    KeptIsTrue(g, plan, sem, scratch, m, init, t);
  }
}
