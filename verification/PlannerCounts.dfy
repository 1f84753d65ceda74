/** The counting half of the graph planner's invariant: reference counters against the reads
    that are still to come. */
module PlannerCounts {
  import opened Wrappers
  import opened GraphPlan
  import opened PlannerMemory

  /** Occurrences of `t` in `src[j..]`. */
  function RefsIn(src: seq<nat>, t: nat, j: nat): nat
    requires j <= |src|
    decreases |src| - j
  {
    if j == |src| then 0 else (if src[j] == t then 1 else 0) + RefsIn(src, t, j + 1)
  }

  /** References to `t` from node `i` on. */
  function RefsFrom(g: Graph, t: nat, i: nat): nat
    requires g.InRange() && i <= |g.nodes|
    decreases |g.nodes| - i
  {
    if i == |g.nodes| then 0 else RefsIn(g.tensors[g.nodes[i]].src, t, 0) + RefsFrom(g, t, i + 1)
  }

  /** References that remain when the first `j` sources of node `i` have been dealt with. */
  function Pending(g: Graph, t: nat, i: nat, j: nat): nat
    requires g.InRange() && i < |g.nodes| && j <= |g.tensors[g.nodes[i]].src|
  {
    RefsIn(g.tensors[g.nodes[i]].src, t, j) + RefsFrom(g, t, i + 1)
  }

  function Totals(g: Graph): (r: seq<nat>)
    requires g.InRange()
  {
    seq(|g.tensors|, t requires 0 <= t < |g.tensors| => RefsFrom(g, t, 0))
  }

  /** Node `m` is a view of `r`, with an op, that is not used up: it is never read at all, or some
      read of it is still to come. */
  predicate OpenView(g: Graph, total: seq<nat>, pend: seq<nat>, r: nat, m: nat)
    requires g.InRange() && m < |g.nodes| && |total| == |pend| == |g.tensors|
  {
    var v := g.nodes[m];
    g.IsView(v) && g.Root(v) == r && g.tensors[v].op.Op? && (total[v] == 0 || pend[v] > 0)
  }

  /** Open views of `r` among the first `m` nodes. */
  function OpenViews(g: Graph, total: seq<nat>, pend: seq<nat>, r: nat, m: nat): nat
    requires g.InRange() && m <= |g.nodes| && |total| == |pend| == |g.tensors|
  {
    if m == 0 then 0 else OpenViews(g, total, pend, r, m - 1) + if OpenView(g, total, pend, r, m - 1) then 1 else 0
  }

  lemma {:induction false} RefsInPositive(src: seq<nat>, t: nat, j: nat, k: nat)
    requires j <= k < |src| && src[k] == t
    ensures RefsIn(src, t, j) > 0
    decreases k - j
  {
    if j < k { RefsInPositive(src, t, j + 1, k); }
  }

  lemma {:induction false} RefsFromPositive(g: Graph, t: nat, i: nat, n: nat, k: nat)
    requires g.InRange() && i <= n < |g.nodes| && k < |g.tensors[g.nodes[n]].src| && g.tensors[g.nodes[n]].src[k] == t
    ensures RefsFrom(g, t, i) > 0
    decreases n - i
  {
    if i < n { RefsFromPositive(g, t, i + 1, n, k); } else { RefsInPositive(g.tensors[g.nodes[n]].src, t, 0, k); }
  }

  lemma {:induction false} NoRefs(g: Graph, t: nat, i: nat)
    requires g.InRange() && i <= |g.nodes|
    requires forall n, k :: i <= n < |g.nodes| && 0 <= k < |g.tensors[g.nodes[n]].src| ==> g.tensors[g.nodes[n]].src[k] != t
    ensures RefsFrom(g, t, i) == 0
    decreases |g.nodes| - i
  {
    if i < |g.nodes| {
      NoRefs(g, t, i + 1);
      NoRefsIn(g.tensors[g.nodes[i]].src, t, 0);
    }
  }

  lemma {:induction false} NoRefsIn(src: seq<nat>, t: nat, j: nat)
    requires j <= |src| && forall k :: j <= k < |src| ==> src[k] != t
    ensures RefsIn(src, t, j) == 0
    decreases |src| - j
  {
    if j < |src| { NoRefsIn(src, t, j + 1); }
  }

  /** A view of a view does not exist, so a view has no open views. */
  lemma {:induction false} ViewsHaveNoViews(g: Graph, total: seq<nat>, pend: seq<nat>, r: nat, m: nat)
    requires g.WellFormed() && m <= |g.nodes| && |total| == |pend| == |g.tensors|
    requires r < |g.tensors| && g.IsView(r)
    ensures OpenViews(g, total, pend, r, m) == 0
  {
    if m > 0 {
      ViewsHaveNoViews(g, total, pend, r, m - 1);
      assert g.NodeOk(m - 1);
    }
  }

  lemma {:induction false} NoOpenViews(g: Graph, total: seq<nat>, pend: seq<nat>, r: nat, n: nat, m: nat)
    requires g.InRange() && m < n <= |g.nodes| && |total| == |pend| == |g.tensors|
    requires OpenViews(g, total, pend, r, n) == 0
    ensures !OpenView(g, total, pend, r, m)
    decreases n
  {
    if m < n - 1 { NoOpenViews(g, total, pend, r, n - 1, m); }
  }

  /** One reference less: open views change only when a view loses its last one. */
  lemma {:induction false} OpenViewsSame(g: Graph, total: seq<nat>, pend: seq<nat>, s: nat, x: nat, r: nat, n: nat)
    requires g.InRange() && n <= |g.nodes| && |total| == |pend| == |g.tensors| && s < |pend|
    requires (x > 0 && pend[s] > 0) || !g.IsView(s) || g.Root(s) != r || (forall m :: 0 <= m < n ==> g.nodes[m] != s)
    ensures OpenViews(g, total, pend[s := x], r, n) == OpenViews(g, total, pend, r, n)
  {
    if n > 0 { OpenViewsSame(g, total, pend, s, x, r, n - 1); }
  }

  lemma {:induction false} OpenViewsLess(g: Graph, total: seq<nat>, pend: seq<nat>, s: nat, k: nat, n: nat)
    requires g.WellFormed() && k < n <= |g.nodes| && |total| == |pend| == |g.tensors|
    requires g.nodes[k] == s && g.IsView(s) && g.tensors[s].op.Op? && total[s] > 0 && pend[s] > 0
    ensures OpenViews(g, total, pend[s := 0], g.Root(s), n) == OpenViews(g, total, pend, g.Root(s), n) - 1
    decreases n
  {
    if k < n - 1 {
      OpenViewsLess(g, total, pend, s, k, n - 1);
      assert !g.SameNode(n - 1, k);
    } else {
      forall m | 0 <= m < n - 1 ensures g.nodes[m] != s {
        assert !g.SameNode(m, k);
      }
      OpenViewsSame(g, total, pend, s, 0, g.Root(s), n - 1);
    }
  }

  /** The planner's counters: `nChildren` the references still to come, `nViews` the views
      still open. */
  ghost predicate Counted(g: Graph, hash: seq<HashNode>, total: seq<nat>, pend: seq<nat>)
    requires g.InRange()
  {
    && |hash| == |pend| == |g.tensors| && total == Totals(g)
    && forall t :: 0 <= t < |hash| ==>
         hash[t].nChildren == pend[t] && hash[t].nViews == OpenViews(g, total, pend, t, |g.nodes|)
  }

  /** Nothing reads `t` any more, directly or through a view, and it is not there to stay. */
  ghost predicate Finished(g: Graph, pend: seq<nat>, t: nat)
    requires g.InRange() && t < |g.tensors| == |pend|
  {
    !g.Keeps(t) && pend[t] == 0 && ViewsDone(g, pend, t)
  }

  predicate ViewNode(g: Graph, m: nat, t: nat)
    requires g.InRange() && m < |g.nodes|
  {
    g.IsView(g.nodes[m]) && g.Root(g.nodes[m]) == t && g.tensors[g.nodes[m]].op.Op?
  }

  ghost predicate ViewsDone(g: Graph, pend: seq<nat>, t: nat)
    requires g.InRange() && |pend| == |g.tensors|
  {
    forall m :: 0 <= m < |g.nodes| && ViewNode(g, m, t) ==> pend[g.nodes[m]] == 0
  }

  ghost predicate PendsFrom(g: Graph, pend: seq<nat>, i: nat)
    requires g.InRange() && i <= |g.nodes|
  {
    |pend| == |g.tensors| && forall t :: 0 <= t < |pend| ==> pend[t] == RefsFrom(g, t, i)
  }

  /** The counters decide liveness: with no children and no open views nothing from node `i`
      on needs a tensor that is not an output. */
  lemma ZeroCountsMeanDone(g: Graph, hash: seq<HashNode>, total: seq<nat>, pend: seq<nat>, t: nat)
    requires g.InRange() && Counted(g, hash, total, pend) && t < |hash|
    requires hash[t].nViews == 0
    requires forall u :: 0 <= u < |pend| ==> pend[u] <= total[u]
    ensures ViewsDone(g, pend, t) && !g.KeptForView(t)
  {
    forall m | 0 <= m < |g.nodes| && ViewNode(g, m, t) ensures pend[g.nodes[m]] == 0 {
      NoOpenViews(g, total, pend, t, |g.nodes|, m);
    }
    if m :| 0 <= m < |g.nodes| && g.UnreadView(m, t) {
      NoOpenViews(g, total, pend, t, |g.nodes|, m);
      UnreadHasNoRefs(g, g.nodes[m]);
    }
  }

  lemma UnreadHasNoRefs(g: Graph, t: nat)
    requires g.InRange() && t < |g.tensors| && g.Unread(t)
    ensures Totals(g)[t] == 0
  {
    forall n, k | 0 <= n < |g.nodes| && 0 <= k < |g.tensors[g.nodes[n]].src| ensures g.tensors[g.nodes[n]].src[k] != t {
      assert !g.Reads(n, t);
    }
    NoRefs(g, t, 0);
  }

  /** A view that a node reads has an op. */
  lemma ReadViewHasOp(g: Graph, j: nat, k: nat)
    requires g.WellFormed() && j < |g.nodes| && k < |g.tensors[g.nodes[j]].src|
    ensures var s := g.tensors[g.nodes[j]].src[k];
            g.IsView(s) ==> g.tensors[s].op.Op? && exists m :: 0 <= m < j && g.nodes[m] == s
  {
    var s := g.tensors[g.nodes[j]].src[k];
    if g.IsView(s) {
      assert g.SourceOk(j, k);
      EarlierPresent(g, s, j);
      var m :| 0 <= m < j && g.nodes[m] == s;
      assert g.NodeOk(m) && g.Reads(j, s);
    }
  }

  lemma FinishedIsNotNeeded(g: Graph, pend: seq<nat>, t: nat, i: nat)
    requires g.WellFormed() && i <= |g.nodes| && PendsFrom(g, pend, i) && t < |g.tensors| && Finished(g, pend, t)
    ensures !g.Needed(t, i)
  {
    if g.Needed(t, i) {
      var j :| i <= j < |g.nodes| && g.ReadsRoot(j, t);
      var k :| 0 <= k < |g.tensors[g.nodes[j]].src| && g.Root(g.tensors[g.nodes[j]].src[k]) == t;
      ReadersPend(g, pend, i, j, k);
    }
  }

  /** A read to come of `t` or of a view of it is among the pending ones. */
  lemma ReadersPend(g: Graph, pend: seq<nat>, i: nat, j: nat, k: nat)
    requires g.WellFormed() && i <= j < |g.nodes| && PendsFrom(g, pend, i) && k < |g.tensors[g.nodes[j]].src|
    ensures var s := g.tensors[g.nodes[j]].src[k];
            if g.IsView(s) then !ViewsDone(g, pend, g.Root(s)) else pend[s] > 0
  {
    var s := g.tensors[g.nodes[j]].src[k];
    RefsFromPositive(g, s, i, j, k);
    ReadViewHasOp(g, j, k);
    if g.IsView(s) {
      var m :| 0 <= m < j && g.nodes[m] == s;
      assert ViewNode(g, m, g.Root(s)) && pend[g.nodes[m]] > 0;
    }
  }

  /** The counters of a finished tensor are zero. */
  lemma FinishedCounts(g: Graph, hash: seq<HashNode>, total: seq<nat>, pend: seq<nat>, t: nat)
    requires g.InRange() && Counted(g, hash, total, pend) && t < |hash| && Finished(g, pend, t)
    ensures hash[t].nChildren == 0 && hash[t].nViews == 0
  {
    AllViewsClosed(g, total, pend, t, |g.nodes|);
  }

  lemma {:induction false} AllViewsClosed(g: Graph, total: seq<nat>, pend: seq<nat>, t: nat, n: nat)
    requires g.InRange() && |pend| == |g.tensors| && total == Totals(g) && t < |g.tensors| && n <= |g.nodes|
    requires Finished(g, pend, t)
    ensures OpenViews(g, total, pend, t, n) == 0
  {
    if n > 0 {
      AllViewsClosed(g, total, pend, t, n - 1);
      if OpenView(g, total, pend, t, n - 1) {
        assert ViewNode(g, n - 1, t);
        NoRefsUnread(g, g.nodes[n - 1]);
        assert g.UnreadView(n - 1, t);
      }
    }
  }

  lemma NoRefsUnread(g: Graph, t: nat)
    requires g.InRange() && t < |g.tensors| && Totals(g)[t] == 0
    ensures g.Unread(t)
  {
    forall j | 0 <= j < |g.nodes| ensures !g.Reads(j, t) {
      if g.Reads(j, t) {
        var k :| 0 <= k < |g.tensors[g.nodes[j]].src| && g.tensors[g.nodes[j]].src[k] == t;
        RefsFromPositive(g, t, 0, j, k);
      }
    }
  }

  /** Whatever is owned is not finished, but for the tensor about to be freed. */
  ghost predicate Freed(g: Graph, hash: seq<HashNode>, pend: seq<nat>, late: Option<nat>)
    requires g.InRange() && |hash| == |pend| == |g.tensors|
  {
    forall t :: 0 <= t < |hash| && hash[t].owned && Finished(g, pend, t) ==> late == Some(t)
  }

  /** A tensor is not finished before a node that reads it. */
  lemma ReadLater(g: Graph, pend: seq<nat>, i: nat, j: nat, t: nat)
    requires g.WellFormed() && i <= j < |g.nodes| && PendsFrom(g, pend, i) && t < |g.tensors| && g.ReadsRoot(j, t)
    ensures !Finished(g, pend, t)
  {
    var k :| 0 <= k < |g.tensors[g.nodes[j]].src| && g.Root(g.tensors[g.nodes[j]].src[k]) == t;
    ReadersPend(g, pend, i, j, k);
  }

  lemma FreedAtStart(g: Graph, hash: seq<HashNode>, pend: seq<nat>)
    requires g.WellFormed() && |hash| == |g.tensors| && PendsFrom(g, pend, 0)
    ensures Freed(g, hash, pend, None)
  {
    forall t | 0 <= t < |hash| && g.IsRead(t) ensures !Finished(g, pend, t) {
      var j :| 0 <= j < |g.nodes| && g.ReadsRoot(j, t);
      ReadLater(g, pend, 0, j, t);
    }
  }

  /** One read less finishes only what was read. */
  lemma FinishedNow(g: Graph, pend: seq<nat>, s: nat, t: nat)
    requires g.InRange() && |pend| == |g.tensors| && s < |pend| && pend[s] > 0 && t < |g.tensors|
    requires !Finished(g, pend, t) && Finished(g, pend[s := pend[s] - 1], t)
    ensures t == s || (g.IsView(s) && g.Root(s) == t && pend[s] == 1)
  {
    if t != s {
      var m :| 0 <= m < |g.nodes| && ViewNode(g, m, t) && pend[g.nodes[m]] != 0;
      assert pend[s := pend[s] - 1][g.nodes[m]] == 0;
    }
  }
}
