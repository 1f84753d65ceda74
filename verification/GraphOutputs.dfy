/** Which values are still there when a planned graph has run: for a given plan exactly, and exactly
    when safety of the plan is enough for the application to read a tensor afterwards. */
module GraphOutputs {
  import opened Wrappers
  import opened GraphPlan

  /** Every source of node `i` that lies in `r` is `r` itself. */
  predicate ReadsOnlyRoot(g: Graph, i: nat, r: nat)
    requires g.InRange() && i < |g.nodes|
  {
    forall k :: 0 <= k < |g.tensors[g.nodes[i]].src| && g.Root(g.tensors[g.nodes[i]].src[k]) == r ==>
      g.tensors[g.nodes[i]].src[k] == r
  }

  /** Nothing keeps the root of `t` after node `i`, which writes planned memory: elsewhere than what
      it reads, or working in place on the root itself and reaching as far as `t`. */
  predicate Overwriter(g: Graph, i: nat, t: nat)
    requires g.InRange() && i < |g.nodes| && t < |g.tensors|
  {
    var n, r := g.nodes[i], g.Root(t);
    && n != r && g.Managed(n) && g.tensors[n].op.Op? && g.tensors[n].len > 0
    && g.Managed(r) && g.Present(r, i) && !g.Needed(r, i + 1)
    && (g.ReadsRoot(i, r) ==> g.tensors[n].op.inplace && ReadsOnlyRoot(g, i, r) && g.tensors[n].len > g.ViewStart(t))
  }

  /** The application has set the given tensors in memory planned safely. */
  ghost predicate Started(g: Graph, plan: Plan, m: Memory, init: seq<Value>)
    requires g.InRange()
  {
    SafePlan(g, plan) && |m.own| == |init| == |g.tensors| && HoldsGivens(g, plan, m, init)
  }

  ghost predicate TrueAtEnd(g: Graph, plan: Plan, sem: Semantics, scratch: Scratch, m: Memory, init: seq<Value>, t: nat)
    requires g.InRange() && t < |g.tensors| && |m.own| == |init| == |g.tensors|
  {
    Fetch(g, plan, MemRun(g, plan, sem, scratch, m, |g.nodes|), t) == ValueOf(g, PureRun(g, sem, init, |g.nodes|), t)
  }

  /** Node `i` writes over bytes of `t`, which are there already. */
  predicate Hits(g: Graph, plan: Plan, i: nat, t: nat)
    requires g.InRange() && i < |g.nodes| && t < |g.tensors|
  {
    var n, u, r := g.nodes[i], g.Root(g.nodes[i]), g.Root(t);
    && g.Writes(n) && u != r && g.Managed(u) && g.Managed(r) && g.Present(r, i) && u in plan && r in plan
    && g.tensors[n].len > 0 && g.tensors[t].len > 0
    && !Apart(At(plan[u], g.ViewStart(n)), g.tensors[n].len, At(plan[r], g.ViewStart(t)), g.tensors[t].len)
  }

  ghost predicate NeverHit(g: Graph, plan: Plan, t: nat)
    requires g.InRange() && t < |g.tensors|
  {
    forall i :: 0 <= i < |g.nodes| ==> !Hits(g, plan, i, t)
  }

  /** Whatever the operations and the inputs: under `plan`, `t` can be read after the run. */
  ghost predicate TrueUnder(g: Graph, plan: Plan, t: nat)
    requires g.InRange() && t < |g.tensors|
  {
    forall sem, scratch, m, init :: Started(g, plan, m, init) ==> TrueAtEnd(g, plan, sem, scratch, m, init, t)
  }

  /** Under every safe plan, `t` can be read after the run. */
  ghost predicate AlwaysTrue(g: Graph, t: nat)
    requires g.InRange() && t < |g.tensors|
  {
    forall plan :: SafePlan(g, plan) ==> TrueUnder(g, plan, t)
  }

  ghost predicate NeverOverwritten(g: Graph, t: nat)
    requires g.InRange() && t < |g.tensors|
  {
    forall i :: 0 <= i < |g.nodes| ==> !Overwriter(g, i, t)
  }

  // ---- kept ----

  lemma InsideRoot(g: Graph, i: nat)
    requires g.WellFormed() && i < |g.nodes|
    ensures g.ViewStart(g.nodes[i]) + g.tensors[g.nodes[i]].len <= g.tensors[g.Root(g.nodes[i])].len
  {
    assert g.NodeOk(i);
  }

  lemma RootManaged(g: Graph, i: nat)
    requires g.WellFormed() && i < |g.nodes| && !g.tensors[g.Root(g.nodes[i])].external
    ensures g.Managed(g.Root(g.nodes[i]))
  {
    assert g.NodeOk(i);
  }

  lemma MissedIsUnchanged(g: Graph, plan: Plan, m: Memory, v: Value, i: nat, t: nat)
    requires g.WellFormed() && i < |g.nodes| && |m.own| == |g.tensors| && t < |g.tensors| && !Hits(g, plan, i, t)
    requires g.Managed(g.Root(t)) && g.Present(g.Root(t), i)
    requires g.Writes(g.nodes[i]) && g.Root(g.nodes[i]) != g.Root(t) && |v| == g.tensors[g.nodes[i]].len
    ensures Fetch(g, plan, WriteNode(g, plan, m, g.nodes[i], v), t) == Fetch(g, plan, m, t)
  {
    var n, u, r := g.nodes[i], g.Root(g.nodes[i]), g.Root(t);
    if u in plan && !g.tensors[u].external && r in plan {
      RootManaged(g, i);
      var now := Store(m.bytes, At(plan[u], g.ViewStart(n)), v);
      var from, len, whole := g.ViewStart(t), g.tensors[t].len, g.tensors[r].len;
      PartUnchanged(m.bytes, now, plan[r], whole, from, len);
      PartIsFetched(g, plan, m, t);
      PartIsFetched(g, plan, WriteNode(g, plan, m, n, v), t);
    }
  }

  lemma PartIsFetched(g: Graph, plan: Plan, m: Memory, t: nat)
    requires g.InRange() && t < |g.tensors| && |m.own| == |g.tensors| && g.Managed(g.Root(t)) && g.Root(t) in plan
    ensures var r := g.Root(t);
            Fetch(g, plan, m, t) == Slice(Load(m.bytes, plan[r], g.tensors[r].len), g.ViewStart(t), g.tensors[t].len)
  {
  }

  lemma PartUnchanged(was: Bytes, now: Bytes, a: Addr, len: nat, offs: nat, part: nat)
    requires forall k :: offs <= k < len && k < offs + part ==> now(At(a, k)) == was(At(a, k))
    ensures Slice(Load(now, a, len), offs, part) == Slice(Load(was, a, len), offs, part)
  {
  }

  /** One step that does not write into the root of `t`. */
  lemma KeptAside(g: Graph, plan: Plan, sem: Semantics, scratch: Scratch, m: Memory, vals: seq<Value>, i: nat, t: nat)
    requires g.WellFormed() && SafePlan(g, plan) && i < |g.nodes| && |m.own| == |vals| == |g.tensors| && t < |g.tensors|
    requires g.Managed(g.Root(t)) && !Hits(g, plan, i, t) && g.Present(g.Root(t), i)
    requires Fetch(g, plan, m, t) == ValueOf(g, vals, t) && (g.Writes(g.nodes[i]) ==> g.Root(g.nodes[i]) != g.Root(t))
    ensures Fetch(g, plan, MemStep(g, plan, sem, scratch, m, i), t) == ValueOf(g, PureStep(g, sem, vals, i), t)
  {
    hide Fetch, WriteNode, Apply, FetchArgs, Args, Written, SafePlan, Hits, Graph.Present;
    var n := g.nodes[i];
    if g.Writes(n) {
      var busy := Busy(g, plan, scratch, m, n);
      MissedIsUnchanged(g, plan, m, Fit(scratch(n), g.tensors[n].len), i, t);
      MissedIsUnchanged(g, plan, busy, Apply(g, sem, n, FetchArgs(g, plan, m, busy, n)), i, t);
    }
  }

  /** One step that writes the root of `t`, or into it through a view. */
  lemma JustWritten(g: Graph, plan: Plan, sem: Semantics, scratch: Scratch, m: Memory, vals: seq<Value>, i: nat)
    requires g.WellFormed() && SafePlan(g, plan) && i < |g.nodes| && |m.own| == |vals| == |g.tensors|
    requires Faithful(g, plan, m, vals, i) && g.Writes(g.nodes[i])
    ensures var r := g.Root(g.nodes[i]);
            FetchRoot(g, plan, MemStep(g, plan, sem, scratch, m, i), r) == PureStep(g, sem, vals, i)[r]
  {
    var n, r := g.nodes[i], g.Root(g.nodes[i]);
    if g.IsView(n) {
      RootEarlier(g, i, i);
      ViewKeepsRoot(g, i);
      assert Watched(g, r, i);
    }
    hide FetchRoot, WriteNode, Apply, FetchArgs, Args, Written, SafePlan, Faithful;
    ArgsAgree(g, plan, scratch, m, vals, i);
    var busy := Busy(g, plan, scratch, m, n);
    var u, v := Fit(scratch(n), g.tensors[n].len), Apply(g, sem, n, Args(g, vals, g.tensors[n].src));
    RootIsWritten(g, plan, m, vals[r], n, u);
    RootIsWritten(g, plan, busy, Written(g, n, vals[r], u), n, v);
    WrittenTwice(g, n, vals[r], u, v);
  }

  lemma FetchFromRoot(g: Graph, plan: Plan, m: Memory, vals: seq<Value>, t: nat)
    requires g.InRange() && t < |g.tensors| && |m.own| == |vals| == |g.tensors|
    requires FetchRoot(g, plan, m, g.Root(t)) == vals[g.Root(t)]
    ensures Fetch(g, plan, m, t) == ValueOf(g, vals, t)
  {
  }

  lemma {:induction false} KeptAlong(g: Graph, plan: Plan, sem: Semantics, scratch: Scratch, m: Memory, init: seq<Value>,
                                     t: nat, i: nat)
    requires g.WellFormed() && Started(g, plan, m, init) && i <= |g.nodes| && t < |g.tensors|
    requires g.Managed(g.Root(t)) && NeverHit(g, plan, t) && g.Present(g.Root(t), i)
    ensures Fetch(g, plan, MemRun(g, plan, sem, scratch, m, i), t) == ValueOf(g, PureRun(g, sem, init, i), t)
  {
    hide SafePlan, HoldsGivens, MemStep, PureStep, Fetch, ValueOf, Faithful, FetchRoot, Hits, Graph.Present;
    var r := g.Root(t);
    if i == 0 {
      GivenHolds(g, plan, m, init, r);
      FetchFromRoot(g, plan, m, init, t);
    } else {
      PresentBefore(g, r, i - 1);
      RunAgrees(g, plan, sem, scratch, m, init, i - 1);
      var mem, vals := MemRun(g, plan, sem, scratch, m, i - 1), PureRun(g, sem, init, i - 1);
      if g.Writes(g.nodes[i - 1]) && g.Root(g.nodes[i - 1]) == r {
        JustWritten(g, plan, sem, scratch, mem, vals, i - 1);
        FetchFromRoot(g, plan, MemStep(g, plan, sem, scratch, mem, i - 1), PureStep(g, sem, vals, i - 1), t);
      } else {
        KeptAlong(g, plan, sem, scratch, m, init, t, i - 1);
        KeptAside(g, plan, sem, scratch, mem, vals, i - 1, t);
      }
    }
  }

  lemma GivenHolds(g: Graph, plan: Plan, m: Memory, init: seq<Value>, r: nat)
    requires g.InRange() && Started(g, plan, m, init) && r < |g.tensors| && g.Present(r, 0)
    ensures FetchRoot(g, plan, m, r) == init[r]
  {
    assert g.Given(r);
  }

  lemma PresentBefore(g: Graph, r: nat, i: nat)
    requires g.InRange() && i < |g.nodes| && r < |g.tensors| && !g.IsView(r) && g.Present(r, i + 1)
    ensures g.Present(r, i) || (r == g.nodes[i] && g.Writes(r) && g.Root(r) == r)
  {
    assert g.nodes[..i + 1] == g.nodes[..i] + [g.nodes[i]];
    if r == g.nodes[i] { assert r in g.nodes; }
  }

  lemma RootPresent(g: Graph, t: nat)
    requires g.WellFormed() && t < |g.tensors| && (t in g.leafs || t in g.nodes)
    ensures !g.IsView(g.Root(t)) && g.Present(g.Root(t), |g.nodes|)
    ensures g.IsView(t) ==> exists j :: 0 <= j < |g.nodes| && g.nodes[j] == t
    ensures g.tensors[t].len > 0 && g.IsView(t) ==> g.tensors[t].viewOffs + g.tensors[t].len <= g.tensors[g.Root(t)].len
  {
    assert g.nodes[..|g.nodes|] == g.nodes;
    EarlierPresent(g, t, |g.nodes|);
    if g.IsView(t) {
      var j :| 0 <= j < |g.nodes| && g.nodes[j] == t;
      assert g.NodeOk(j);
      EarlierMonotone(g, g.Root(t), j, |g.nodes|);
      EarlierPresent(g, g.Root(t), |g.nodes|);
    }
  }

  lemma MissedIsTrue(g: Graph, plan: Plan, sem: Semantics, scratch: Scratch, m: Memory, init: seq<Value>, t: nat)
    requires g.WellFormed() && Started(g, plan, m, init) && t < |g.tensors| && (t in g.leafs || t in g.nodes)
    requires NeverHit(g, plan, t)
    ensures TrueAtEnd(g, plan, sem, scratch, m, init, t)
  {
    hide SafePlan, FetchRoot, NeverHit;
    RootPresent(g, t);
    if g.Managed(g.Root(t)) {
      KeptAlong(g, plan, sem, scratch, m, init, t, |g.nodes|);
    } else {
      RunAgrees(g, plan, sem, scratch, m, init, |g.nodes|);
      assert Watched(g, g.Root(t), |g.nodes|);
    }
  }

  // ---- lost ----

  /** Node `n` computes ones, everything else zeros. */
  function Ones(g: Graph, n: nat): Semantics
    requires g.InRange()
  {
    (u: nat, args: seq<Value>) => if u < |g.tensors| && u == n then seq(g.tensors[u].len, _ => 1) else []
  }

  function Zeros(g: Graph): seq<Value> {
    seq(|g.tensors|, u requires 0 <= u < |g.tensors| => Fit([], g.tensors[u].len))
  }

  function ZeroMemory(g: Graph): Memory {
    Memory((a: Addr) => 0, Zeros(g))
  }

  lemma ZerosAreStarted(g: Graph, plan: Plan)
    requires g.InRange() && SafePlan(g, plan)
    ensures Started(g, plan, ZeroMemory(g), Zeros(g))
  {
    forall t | 0 <= t < |g.tensors| && g.Given(t) ensures FetchRoot(g, plan, ZeroMemory(g), t) == Zeros(g)[t] {
      assert t in plan ==> Load(ZeroMemory(g).bytes, plan[t], g.tensors[t].len) == Fit([], g.tensors[t].len);
    }
  }

  lemma WritesZeros(g: Graph, n: nat, u: nat, args: seq<Value>, len: nat)
    requires g.InRange() && u < |g.tensors| && u != n
    requires !g.IsView(u) ==> len == g.tensors[u].len
    ensures Written(g, u, Fit([], len), Apply(g, Ones(g, n), u, args)) == Fit([], len)
  {
  }

  /** What the graph means keeps the root zero. */
  lemma {:induction false} RootStaysZero(g: Graph, n: nat, r: nat, i: nat)
    requires g.InRange() && r < |g.tensors| && n < |g.tensors| && !g.IsView(r) && r != g.Root(n) && i <= |g.nodes|
    ensures PureRun(g, Ones(g, n), Zeros(g), i)[r] == Fit([], g.tensors[r].len)
  {
    hide Written, Apply, Args, Fit, Ones;
    if i > 0 {
      RootStaysZero(g, n, r, i - 1);
      var u, vals := g.nodes[i - 1], PureRun(g, Ones(g, n), Zeros(g), i - 1);
      if g.Root(u) == r {
        WritesZeros(g, n, u, Args(g, vals, g.tensors[u].src), g.tensors[r].len);
      }
    }
  }

  /** A byte of `t` that node `i` writes. */
  function Spot(g: Graph, plan: Plan, i: nat, t: nat): (x: Addr)
    requires g.InRange() && i < |g.nodes| && t < |g.tensors| && Hits(g, plan, i, t)
    ensures Reaches(At(plan[g.Root(g.nodes[i])], g.ViewStart(g.nodes[i])), g.tensors[g.nodes[i]].len, x)
    ensures Reaches(At(plan[g.Root(t)], g.ViewStart(t)), g.tensors[t].len, x)
  {
    var a, b := At(plan[g.Root(g.nodes[i])], g.ViewStart(g.nodes[i])), At(plan[g.Root(t)], g.ViewStart(t));
    if a.offset >= b.offset then a else b
  }

  predicate Reaches(a: Addr, len: nat, x: Addr) {
    x.buffer == a.buffer && x.chunk == a.chunk && a.offset <= x.offset < a.offset + len
  }

  /** No node after `i` hits `t`. */
  ghost predicate LastHit(g: Graph, plan: Plan, i: nat, t: nat)
    requires g.InRange() && t < |g.tensors| && i < |g.nodes|
  {
    Hits(g, plan, i, t) && forall j :: i < j < |g.nodes| ==> !Hits(g, plan, j, t)
  }

  lemma {:induction false} SomeLastHit(g: Graph, plan: Plan, i: nat, t: nat) returns (k: nat)
    requires g.InRange() && t < |g.tensors| && i < |g.nodes| && Hits(g, plan, i, t)
    ensures k < |g.nodes| && LastHit(g, plan, k, t)
    decreases |g.nodes| - i
  {
    hide Hits;
    k := i;
    if j :| i < j < |g.nodes| && Hits(g, plan, j, t) {
      k := SomeLastHit(g, plan, j, t);
    }
  }

  /** Once `t` has been hit nothing writes into its root: a view that did would have kept the root. */
  lemma RootNotWritten(g: Graph, plan: Plan, i: nat, t: nat, j: nat)
    requires g.WellFormed() && SafePlan(g, plan) && t < |g.tensors| && i < j < |g.nodes|
    requires (t in g.leafs || t in g.nodes) && Hits(g, plan, i, t) && g.Writes(g.nodes[j])
    ensures g.Root(g.nodes[j]) != g.Root(t)
  {
    hide SafePlan;
    var w, r := g.nodes[j], g.Root(t);
    if g.IsView(w) && g.Root(w) == r {
      ViewKeepsRoot(g, j);
      NeededBefore(g, r, i + 1, j);
      WriteIsApart(g, plan, i, r);
      InsideRoot(g, i);
      RootPresent(g, t);
      SparesApart(g, plan, i, t);
    } else if !g.Given(r) {
      EarlierMonotone(g, r, i, j);
      LaterNodesDiffer(g, j, r);
    }
  }

  /** A write of node `i` lies apart from what is needed after it. */
  lemma WriteIsApart(g: Graph, plan: Plan, i: nat, r: nat)
    requires g.WellFormed() && SafePlan(g, plan) && i < |g.nodes| && r < |g.tensors| && g.Writes(g.nodes[i])
    requires g.Root(g.nodes[i]) != r && g.Managed(g.Root(g.nodes[i])) && g.Managed(r) && g.Present(r, i) && g.Needed(r, i + 1)
    ensures Disjoint(g, plan, g.Root(g.nodes[i]), r)
  {
    hide Disjoint, Graph.Needed;
    if g.IsView(g.nodes[i]) {
      RootEarlier(g, i, i);
      ViewKeepsRoot(g, i);
      NeededBefore(g, r, i, i + 1);
      LiveApart(g, plan, g.Root(g.nodes[i]), r, i);
    } else {
      assert MustSurvive(g, i, r);
    }
  }

  /** A one stays where the last node to hit `t` wrote it. */
  lemma {:induction false} OneStays(g: Graph, plan: Plan, scratch: Scratch, i: nat, t: nat, j: nat)
    requires g.WellFormed() && SafePlan(g, plan) && t < |g.tensors| && (t in g.leafs || t in g.nodes)
    requires i < j <= |g.nodes| && LastHit(g, plan, i, t)
    ensures MemRun(g, plan, Ones(g, g.nodes[i]), scratch, ZeroMemory(g), j).bytes(Spot(g, plan, i, t)) == 1
  {
    hide Ones, MemStep, Hits, SafePlan, Spot;
    var m := MemRun(g, plan, Ones(g, g.nodes[i]), scratch, ZeroMemory(g), j - 1);
    if j - 1 > i {
      OneStays(g, plan, scratch, i, t, j - 1);
      StepKeepsByte(g, plan, Ones(g, g.nodes[i]), scratch, m, i, t, j - 1);
    } else {
      OneIsWritten(g, plan, scratch, m, i, t);
    }
  }

  lemma OneIsWritten(g: Graph, plan: Plan, scratch: Scratch, m: Memory, i: nat, t: nat)
    requires g.InRange() && t < |g.tensors| && i < |g.nodes| && |m.own| == |g.tensors| && Hits(g, plan, i, t)
    ensures MemStep(g, plan, Ones(g, g.nodes[i]), scratch, m, i).bytes(Spot(g, plan, i, t)) == 1
  {
    hide FetchArgs, Spot;
  }

  lemma StepKeepsByte(g: Graph, plan: Plan, sem: Semantics, scratch: Scratch, m: Memory, i: nat, t: nat, j: nat)
    requires g.WellFormed() && SafePlan(g, plan) && t < |g.tensors| && i < j < |g.nodes| && |m.own| == |g.tensors|
    requires (t in g.leafs || t in g.nodes) && LastHit(g, plan, i, t)
    ensures MemStep(g, plan, sem, scratch, m, j).bytes(Spot(g, plan, i, t)) == m.bytes(Spot(g, plan, i, t))
  {
    hide Apply, FetchArgs, SafePlan, Spot;
    var w := g.nodes[j];
    if g.Writes(w) {
      RootNotWritten(g, plan, i, t, j);
      StillPresent(g, g.Root(t), i, j);
      assert !Hits(g, plan, j, t);
      if !g.tensors[g.Root(w)].external { RootManaged(g, j); }
    }
  }

  lemma StillPresent(g: Graph, r: nat, i: nat, j: nat)
    requires r < |g.tensors| && i <= j <= |g.nodes| && g.Present(r, i)
    ensures g.Present(r, j)
  {
    if !g.Given(r) {
      var a :| 0 <= a < i && g.nodes[..i][a] == r;
      assert g.nodes[..j][a] == r;
    }
  }

  lemma HitIsLost(g: Graph, plan: Plan, scratch: Scratch, i: nat, t: nat)
    requires g.WellFormed() && SafePlan(g, plan) && i < |g.nodes| && t < |g.tensors| && (t in g.leafs || t in g.nodes)
    requires LastHit(g, plan, i, t)
    ensures Started(g, plan, ZeroMemory(g), Zeros(g))
    ensures !TrueAtEnd(g, plan, Ones(g, g.nodes[i]), scratch, ZeroMemory(g), Zeros(g), t)
  {
    hide SafePlan, Ones, HoldsGivens, MemRun, PureRun;
    var n, r := g.nodes[i], g.Root(t);
    ZerosAreStarted(g, plan);
    RootPresent(g, t);
    RootStaysZero(g, n, r, |g.nodes|);
    OneStays(g, plan, scratch, i, t, |g.nodes|);
    ReadsOne(g, plan, MemRun(g, plan, Ones(g, n), scratch, ZeroMemory(g), |g.nodes|), i, t);
    ReadsZero(g, PureRun(g, Ones(g, n), Zeros(g), |g.nodes|), t);
  }

  lemma ReadsOne(g: Graph, plan: Plan, m: Memory, i: nat, t: nat)
    requires g.InRange() && t < |g.tensors| && i < |g.nodes| && |m.own| == |g.tensors| && Hits(g, plan, i, t)
    requires g.IsView(t) ==> g.tensors[t].viewOffs + g.tensors[t].len <= g.tensors[g.Root(t)].len
    requires m.bytes(Spot(g, plan, i, t)) == 1
    ensures exists k :: 0 <= k < |Fetch(g, plan, m, t)| && Fetch(g, plan, m, t)[k] == 1
  {
    var r, x := g.Root(t), Spot(g, plan, i, t);
    var k := x.offset - plan[r].offset - g.ViewStart(t);
    PartIsFetched(g, plan, m, t);
    assert At(plan[r], g.ViewStart(t) + k) == x;
    assert Fetch(g, plan, m, t)[k] == Load(m.bytes, plan[r], g.tensors[r].len)[g.ViewStart(t) + k];
  }

  lemma ReadsZero(g: Graph, vals: seq<Value>, t: nat)
    requires g.InRange() && t < |g.tensors| == |vals|
    requires vals[g.Root(t)] == Fit([], g.tensors[g.Root(t)].len)
    ensures forall k :: 0 <= k < |ValueOf(g, vals, t)| ==> ValueOf(g, vals, t)[k] == 0
  {
  }

  /** Under a safe plan a tensor that is there can be read after the run, whatever is computed, exactly
      when no node writes over its bytes once they are there. */
  lemma KeptUnderPlanIff(g: Graph, plan: Plan, t: nat)
    requires g.WellFormed() && SafePlan(g, plan) && t < |g.tensors| && (t in g.leafs || t in g.nodes)
    ensures TrueUnder(g, plan, t) <==> NeverHit(g, plan, t)
  {
    hide SafePlan, HoldsGivens, TrueAtEnd, Hits, Ones;
    if NeverHit(g, plan, t) {
      forall sem, scratch, m, init | Started(g, plan, m, init) ensures TrueAtEnd(g, plan, sem, scratch, m, init, t) {
        MissedIsTrue(g, plan, sem, scratch, m, init, t);
      }
    } else {
      var i :| 0 <= i < |g.nodes| && Hits(g, plan, i, t);
      var k := SomeLastHit(g, plan, i, t);
      var nothing: Scratch := (n: nat) => [];
      HitIsLost(g, plan, nothing, k, t);
    }
  }

  // ---- every safe plan ----

  /** Writing into `u` leaves `t` alone: apart from its root, or before its part of it. */
  ghost predicate Spares(g: Graph, plan: Plan, u: nat, t: nat)
    requires g.InRange() && u < |g.tensors| && t < |g.tensors|
  {
    || Disjoint(g, plan, u, g.Root(t))
    || (u in plan && g.Root(t) in plan && plan[u] == plan[g.Root(t)] && g.tensors[u].len <= g.ViewStart(t))
  }

  /** A node that may not overwrite `t` spares it. */
  lemma WriterSpares(g: Graph, plan: Plan, b: nat, t: nat)
    requires g.WellFormed() && SafePlan(g, plan) && b < |g.nodes| && t < |g.tensors| && !Overwriter(g, b, t)
    requires g.nodes[b] != g.Root(t) && g.Managed(g.Root(t)) && g.Present(g.Root(t), b)
    requires g.Managed(g.nodes[b]) && g.tensors[g.nodes[b]].op.Op? && g.tensors[g.nodes[b]].len > 0
    ensures Spares(g, plan, g.nodes[b], t)
  {
    hide Graph.Needed, Graph.Present, Disjoint;
    var r := g.Root(t);
    if g.Needed(r, b + 1) {
      assert MustSurvive(g, b, r);
    } else if ReadsOnlyRoot(g, b, r) {
      var k :| 0 <= k < |g.tensors[g.nodes[b]].src| && g.Root(g.tensors[g.nodes[b]].src[k]) == r;
      assert ReadsWhileWriting(g, b, k);
      assert SourceApart(g, plan, b, k);
    } else {
      var k :| 0 <= k < |g.tensors[g.nodes[b]].src| && g.Root(g.tensors[g.nodes[b]].src[k]) == r
               && g.tensors[g.nodes[b]].src[k] != r;
      assert ReadsWhileWriting(g, b, k);
      assert SourceApart(g, plan, b, k);
    }
  }

  /** A root `u` that is needed and one that is never overwritten: the later one was written when
      the other was kept. */
  lemma RootSpares(g: Graph, plan: Plan, i: nat, t: nat, u: nat)
    requires g.WellFormed() && SafePlan(g, plan) && i <= |g.nodes| && t < |g.tensors| && u < |g.tensors| && u != g.Root(t)
    requires NeverOverwritten(g, t) && g.Managed(g.Root(t)) && g.Present(g.Root(t), i)
    requires g.Managed(u) && g.Present(u, i) && g.Needed(u, i) && g.tensors[u].len > 0
    ensures Spares(g, plan, u, t)
  {
    hide SafePlan, Disjoint, Overwriter, Graph.Needed, Graph.Managed;
    var r := g.Root(t);
    if g.Given(u) && g.Given(r) {
      GivensApart(g, plan, u, r);
    } else if g.Given(u) {
      var a :| 0 <= a < i && g.nodes[..i][a] == r;
      LaterApart(g, plan, u, r, a, i);
    } else {
      var b :| 0 <= b < i && g.nodes[..i][b] == u;
      ComputedHasOp(g, u, b);
      if !g.Given(r) {
        var a :| 0 <= a < i && g.nodes[..i][a] == r;
        if b < a {
          assert g.nodes[..a][b] == u;
          LaterApart(g, plan, u, r, a, i);
        } else {
          assert g.nodes[..b][a] == r;
          WriterSpares(g, plan, b, t);
        }
      } else {
        WriterSpares(g, plan, b, t);
      }
    }
  }

  lemma GivensApart(g: Graph, plan: Plan, u: nat, r: nat)
    requires g.InRange() && SafePlan(g, plan) && u < |g.tensors| && r < |g.tensors| && u != r
    requires g.Given(u) && g.Given(r) && g.Managed(u) && g.Managed(r)
    ensures Disjoint(g, plan, u, r)
  {
    assert BothGiven(g, u, r);
  }

  lemma ComputedHasOp(g: Graph, u: nat, b: nat)
    requires u < |g.tensors| && b < |g.nodes| && g.nodes[b] == u && !g.Given(u) && g.Managed(u)
    ensures g.tensors[u].op.Op?
  {
    assert u in g.nodes;
  }

  /** Where node `i` writes, wherever that is, it spares `t`. */
  lemma NodeSpares(g: Graph, plan: Plan, i: nat, t: nat)
    requires g.WellFormed() && SafePlan(g, plan) && i < |g.nodes| && t < |g.tensors|
    requires NeverOverwritten(g, t) && g.Managed(g.Root(t)) && g.Present(g.Root(t), i) && g.Root(g.nodes[i]) != g.Root(t)
    requires g.Writes(g.nodes[i]) && g.Managed(g.Root(g.nodes[i])) && g.tensors[g.nodes[i]].len > 0
    ensures Spares(g, plan, g.Root(g.nodes[i]), t)
  {
    hide SafePlan, Overwriter, Disjoint, Graph.Needed;
    var n := g.nodes[i];
    if !g.IsView(n) {
      WriterSpares(g, plan, i, t);
    } else {
      RootEarlier(g, i, i);
      ViewKeepsRoot(g, i);
      InsideRoot(g, i);
      RootSpares(g, plan, i, t, g.Root(n));
    }
  }

  /** Then no node hits `t`. */
  lemma SparedIsMissed(g: Graph, plan: Plan, t: nat)
    requires g.WellFormed() && SafePlan(g, plan) && t < |g.tensors| && (t in g.leafs || t in g.nodes) && NeverOverwritten(g, t)
    ensures NeverHit(g, plan, t)
  {
    hide SafePlan, NeverOverwritten, Graph.Present;
    RootPresent(g, t);
    forall i | 0 <= i < |g.nodes| ensures !Hits(g, plan, i, t) {
      if Hits(g, plan, i, t) {
        NodeSpares(g, plan, i, t);
        InsideRoot(g, i);
        SparesApart(g, plan, i, t);
      }
    }
  }

  lemma SparesApart(g: Graph, plan: Plan, i: nat, t: nat)
    requires g.WellFormed() && i < |g.nodes| && t < |g.tensors| && Spares(g, plan, g.Root(g.nodes[i]), t)
    requires g.ViewStart(g.nodes[i]) + g.tensors[g.nodes[i]].len <= g.tensors[g.Root(g.nodes[i])].len
    requires g.tensors[t].len > 0 && g.IsView(t) ==> g.tensors[t].viewOffs + g.tensors[t].len <= g.tensors[g.Root(t)].len
    ensures !Hits(g, plan, i, t)
  {
    assert g.WellSized(g.Root(g.nodes[i])) && g.WellSized(g.Root(t));
  }

  /** A chunk for every tensor, but node `i` in the root of `t`: at its start if it works in place
      on it, where `t` begins otherwise. */
  function LosingPlan(g: Graph, i: nat, t: nat): Plan
    requires g.InRange() && i < |g.nodes| && t < |g.tensors|
  {
    map u: nat | u < |g.tensors| ::
      if u == g.nodes[i] then Addr(0, g.Root(t), if g.ReadsRoot(i, g.Root(t)) then 0 else g.ViewStart(t)) else Addr(0, u, 0)
  }

  lemma LosingPlanIsSafe(g: Graph, i: nat, t: nat)
    requires g.WellFormed() && g.buffers > 0 && i < |g.nodes| && t < |g.tensors| && Overwriter(g, i, t)
    ensures SafePlan(g, LosingPlan(g, i, t))
  {
    var n, r, plan := g.nodes[i], g.Root(t), LosingPlan(g, i, t);
    forall u | 0 <= u < |g.tensors| ensures |g.tensors[u].sizes| == g.buffers { assert g.WellSized(u); }
    forall u, v | 0 <= u < |g.tensors| && 0 <= v < |g.tensors| && BothGiven(g, u, v) ensures Disjoint(g, plan, u, v) {
      assert u != n && v != n;
    }
    forall j, u | 0 <= j < |g.nodes| && 0 <= u < |g.tensors| && MustSurvive(g, j, u) ensures Disjoint(g, plan, g.nodes[j], u) {
      OnlyClash(g, i, t, j, u);
    }
    forall j, k | 0 <= j < |g.nodes| && 0 <= k < |g.tensors[g.nodes[j]].src| && ReadsWhileWriting(g, j, k)
      ensures SourceApart(g, plan, j, k)
    {
      LosingPlanSpares(g, i, t, j, k);
    }
  }

  /** The writer and the root never have to be apart. */
  lemma OnlyClash(g: Graph, i: nat, t: nat, j: nat, u: nat)
    requires g.WellFormed() && i < |g.nodes| && j < |g.nodes| && t < |g.tensors| && u < |g.tensors|
    requires Overwriter(g, i, t) && MustSurvive(g, j, u)
    ensures !(g.nodes[j] == g.nodes[i] && u == g.Root(t)) && !(g.nodes[j] == g.Root(t) && u == g.nodes[i])
  {
    if g.nodes[j] == g.nodes[i] {
      assert g.SameNode(i, j);
    } else if g.nodes[j] == g.Root(t) && u == g.nodes[i] {
      NotBefore(g, i, t, j, u);
    }
  }

  lemma NotBefore(g: Graph, i: nat, t: nat, j: nat, u: nat)
    requires g.WellFormed() && i < |g.nodes| && j < |g.nodes| && t < |g.tensors| && u < |g.tensors|
    requires Overwriter(g, i, t) && g.nodes[j] == g.Root(t) && g.tensors[g.Root(t)].op.Op? && g.Present(u, j)
    ensures u != g.nodes[i]
  {
    if u == g.nodes[i] {
      var a :| 0 <= a < i && g.nodes[..i][a] == g.Root(t);
      assert g.SameNode(a, j);
      var b :| 0 <= b < j && g.nodes[..j][b] == u;
      assert g.SameNode(b, i);
    }
  }

  lemma LosingPlanSpares(g: Graph, i: nat, t: nat, j: nat, k: nat)
    requires g.WellFormed() && g.buffers > 0 && i < |g.nodes| && t < |g.tensors| && Overwriter(g, i, t)
    requires j < |g.nodes| && k < |g.tensors[g.nodes[j]].src| && ReadsWhileWriting(g, j, k)
    ensures SourceApart(g, LosingPlan(g, i, t), j, k)
  {
    var s := g.tensors[g.nodes[j]].src[k];
    var u := g.Root(s);
    SourceDiffers(g, j, k);
    SourceIsThere(g, j, k);
    assert g.WellSized(g.nodes[j]) && g.WellSized(u);
    if g.nodes[j] == g.nodes[i] && u == g.Root(t) {
      assert g.SameNode(i, j);
      assert g.ReadsRoot(i, u);
      assert s == u;
    } else if g.nodes[j] == g.Root(t) {
      NotBefore(g, i, t, j, u);
    }
  }

  lemma LosingPlanHits(g: Graph, i: nat, t: nat)
    requires g.WellFormed() && g.buffers > 0 && i < |g.nodes| && t < |g.tensors| && g.tensors[t].len > 0 && Overwriter(g, i, t)
    ensures Hits(g, LosingPlan(g, i, t), i, t)
  {
    hide Graph.Needed, Graph.Present, Graph.ReadsRoot;
  }

  lemma HitOnce(g: Graph, plan: Plan, i: nat, t: nat)
    requires g.InRange() && i < |g.nodes| && t < |g.tensors| && Hits(g, plan, i, t)
    ensures !NeverHit(g, plan, t)
  {
  }

  /** Safety of the plan keeps a tensor readable after the run exactly when no node may write planned
      memory over it once nothing keeps its root: so always for what is there to stay, and for what
      only the last node reads and that node does not work in place. */
  lemma AlwaysTrueIff(g: Graph, t: nat)
    requires g.WellFormed() && g.buffers > 0 && t < |g.tensors| && g.tensors[t].len > 0 && (t in g.leafs || t in g.nodes)
    ensures AlwaysTrue(g, t) <==> NeverOverwritten(g, t)
  {
    hide SafePlan, TrueUnder, NeverHit, Overwriter;
    if NeverOverwritten(g, t) {
      forall plan | SafePlan(g, plan) ensures TrueUnder(g, plan, t) {
        SparedIsMissed(g, plan, t);
        KeptUnderPlanIff(g, plan, t);
      }
    } else {
      var i :| 0 <= i < |g.nodes| && Overwriter(g, i, t);
      LosingPlanIsSafe(g, i, t);
      LosingPlanHits(g, i, t);
      HitOnce(g, LosingPlan(g, i, t), i, t);
      KeptUnderPlanIff(g, LosingPlan(g, i, t), t);
    }
  }

  /** What is there to stay survives under every safe plan, and so does what the last node reads unless
      it works in place. */
  lemma KeptOrReadLast(g: Graph, t: nat)
    requires g.WellFormed() && t < |g.tensors|
    requires g.Keeps(g.Root(t)) || (g.nodes != [] && ReadLast(g, |g.nodes| - 1, g.Root(t)))
    ensures NeverOverwritten(g, t)
  {
    forall i | 0 <= i < |g.nodes| ensures !Overwriter(g, i, t) {
      if !g.Keeps(g.Root(t)) && i < |g.nodes| - 1 { assert g.Needed(g.Root(t), i + 1); }
    }
  }

  predicate ReadLast(g: Graph, i: nat, r: nat)
    requires g.InRange() && i < |g.nodes|
  {
    g.ReadsRoot(i, r) && !(g.tensors[g.nodes[i]].op.Op? && g.tensors[g.nodes[i]].op.inplace)
  }

  /** A tensor computed, an output view of it, a node that reads the view, and one more node. */
  function ReadViewGraph(): Graph {
    var x := Tensor(Op(false, false), [], None, 0, false, false, false, 0, 8, [8]);
    Graph([x, x.(src := [0], viewSrc := Some(0), output := true), x.(src := [1]), x.(src := [2])], [0, 1, 2, 3], [], 1)
  }

  lemma ReadViewNode(i: nat)
    requires i < 4
    ensures var g := ReadViewGraph(); g.InRange() && g.nodes[i] == i && g.WellSized(i) && g.NodeOk(i)
  {
    var g := ReadViewGraph();
    assert g.nodes[..1] == [0];
  }

  lemma ReadViewSource(i: nat, k: nat)
    requires i < 4 && k < |ReadViewGraph().tensors[i].src|
    ensures var g := ReadViewGraph(); g.InRange() && g.nodes[i] == i && g.SourceOk(i, k)
  {
    assert ReadViewGraph().nodes[..i][i - 1] == i - 1;
  }

  lemma ReadViewWellFormed()
    ensures ReadViewGraph().WellFormed()
  {
    hide Graph.NodeOk, Graph.SourceOk, Graph.WellSized;
    var g := ReadViewGraph();
    assert g.InRange();
    forall i | 0 <= i < |g.nodes| ensures g.nodes[i] == i && g.NodeOk(i) && g.WellSized(i) {
      ReadViewNode(i);
    }
    forall i, k | 0 <= i < |g.nodes| && 0 <= k < |g.tensors[g.nodes[i]].src| ensures g.SourceOk(i, k) {
      ReadViewSource(i, k);
    }
  }

  /** The last node may be given the memory behind the output view. */
  lemma ReadViewIsOverwritten()
    ensures var g := ReadViewGraph(); g.WellFormed() && g.tensors[1].output && Overwriter(g, 3, 1) && !AlwaysTrue(g, 1)
  {
    var g := ReadViewGraph();
    ReadViewWellFormed();
    assert g.nodes[..3] == [0, 1, 2];
    assert g.Reads(2, 1);
    assert !g.KeptForView(0) && g.Root(g.tensors[1].src[0]) == 0 && g.ReadsRoot(1, 0);
    assert Overwriter(g, 3, 1);
    AlwaysTrueIff(g, 1);
  }
}
