/** A graph for which the planner hands out the same bytes twice: an in-place node whose size is no
    multiple of the alignment takes over a larger parent. */
module PlannerTail {
  import opened Wrappers
  import opened FreeBlocks
  import opened AllocRuns
  import opened GraphPlan
  import opened PlannerMemory
  import opened PlannerSafety
  import opened PlannerSpec
  import opened PlannerRuns

  /** A tensor of 64 bytes, an in-place node of 40 bytes on it, and two more tensors. */
  function TailGraph(): Graph {
    var x := Tensor(Op(false, false), [], None, 0, false, false, false, 0, 32, [32]);
    Graph([x.(sizes := [64]), x.(op := Op(true, false), src := [0], sizes := [40]), x, x], [0, 1, 2, 3], [], 1)
  }

  function TailJob(): Job {
    Job(TailGraph(), [32], [1024])
  }

  lemma TailTensor(i: nat)
    requires i < 4
    ensures var g := TailGraph(); |g.nodes| == |g.tensors| == 4 && g.leafs == [] && g.nodes[i] == i && g.buffers == 1
    ensures var x := TailGraph().tensors[i];
            && x.src == (if i == 1 then [0] else []) && x.viewSrc == None && x.op == Op(i == 1, false) && !x.external
            && !x.input && !x.output && x.layout == 0 && x.len == 32
            && x.sizes == [if i == 0 then 64 else if i == 1 then 40 else 32]
  {
  }

  lemma TailSuits(s: State)
    requires |s.hash| == 4 && |s.heaps| == 1
    ensures Suits(TailJob(), s)
  {
    hide TailGraph;
    var g := TailGraph();
    TailTensor(0);
    forall t | 0 <= t < 4 ensures g.nodes[t] == t && g.tensors[t].viewSrc == None && |g.tensors[t].src| <= 1 && g.WellSized(t) {
      TailTensor(t);
    }
    forall t, k | 0 <= t < 4 && 0 <= k < |g.tensors[t].src| ensures g.tensors[t].src[k] == 0 {
      TailTensor(t);
    }
  }

  lemma TailNodeOk(i: nat)
    requires i < 4
    ensures TailGraph().InRange() && |TailGraph().nodes| == 4 && TailGraph().NodeOk(i)
    ensures forall k :: 0 <= k < |TailGraph().tensors[TailGraph().nodes[i]].src| ==> TailGraph().SourceOk(i, k)
  {
    hide TailGraph;
    TailTensor(i);
    TailSuits(TailStage(0));
    if i == 1 { assert TailGraph().nodes[..1][0] == 0 by { TailTensor(0); } }
  }

  lemma TailWellFormed()
    ensures TailGraph().WellFormed()
  {
    hide TailGraph, Graph.NodeOk, Graph.SourceOk;
    var g := TailGraph();
    TailSuits(TailStage(0));
    TailTensor(0);
    forall i | 0 <= i < 4 ensures g.nodes[i] == i && g.NodeOk(i) { TailTensor(i); TailNodeOk(i); }
    forall i, k | 0 <= i < |g.nodes| && 0 <= k < |g.tensors[g.nodes[i]].src| ensures g.SourceOk(i, k) { TailNodeOk(i); }
  }

  /** The stages between the turns. */
  function TailStage(i: nat): (s: State)
    requires i <= 4
    ensures |s.hash| == 4 && |s.heaps| == 1
  {
    var n := Rec(0, 0, 0, false);
    if i == 0 then State([Rec(1, 0, 0, false), n, n, n], [[]])
    else if i == 1 then Stage([Rec(1, 0, 0, true), n, n, n], [Block(64, 960)], 64)
    else if i == 2 then Stage([n, Rec(0, 0, 0, true), n, n], [Block(40, 32), Block(64, 960)], 64)
    else if i == 3 then Stage([n, Rec(0, 0, 0, true), Rec(0, 0, 40, true), n], [Block(64, 960)], 72)
    else Stage([n, Rec(0, 0, 0, true), Rec(0, 0, 40, true), Rec(0, 0, 64, true)], [Block(96, 928)], 96)
  }

  lemma TailCounts()
    ensures Suits(TailJob(), State(Blank(TailGraph()), [[]]))
    ensures Counting(TailJob(), State(Blank(TailGraph()), [[]]), None, 0) == Some(TailStage(0))
  {
    hide Suits, CountingNode;
    var j, n, c := TailJob(), Rec(0, 0, 0, false), TailStage(0);
    var s := State(Blank(j.g), [[]]);
    TailSuits(s);
    TailSuits(c);
    assert s.hash == [n, n, n, n];
    CountWithoutSource(j, s, 0, 0);
    CountWithSource(j, s, 1, 0, 0);
    CountWithoutSource(j, c, 2, 0);
    CountWithoutSource(j, c, 3, 0);
    assert SourceCounted(ViewCounted(j.g, s.hash, 1), 0) == c.hash;
    FourCounts(j, s, s, c, c, c);
  }

  lemma TailTurn0()
    ensures Suits(TailJob(), TailStage(0)) && Planning(TailJob(), TailStage(0), 0, 0) == Some(TailStage(1))
  {
    hide TailGraph, Suits, Allocated, Planning, Placing;
    var j, s, u := TailJob(), TailStage(0), TailStage(1);
    TailTensor(0);
    TailSuits(s);
    FirstGrant(64);
    PlacedFresh(j, s, 0, Grant(0, 0, u.heaps[0]), u);
    TurnWithoutSource(j, s, 0, 0, u);
  }

  /** What is left of the parent goes back from byte 40 on. */
  lemma TailIsReleased()
    ensures Released([[ChunkState([Block(64, 960)], 64, 1024)]], Addr(0, 0, 40), 32) ==
            Some([[ChunkState([Block(40, 32), Block(64, 960)], 64, 1024)]])
  {
    var ch, ch' := ChunkState([Block(64, 960)], 64, 1024), ChunkState([Block(40, 32), Block(64, 960)], 64, 1024);
    ReleaseInserts(ch.blocks, 0, 40, 32);
    assert InsertPos(ch.blocks, 40) == 0;
    assert Insert(ch.blocks, Block(40, 32)) == ch'.blocks;
    Gives(ch, 40, 32, ch');
  }

  lemma TailTurn1()
    ensures Suits(TailJob(), TailStage(1)) && Planning(TailJob(), TailStage(1), 1, 0) == Some(TailStage(2))
  {
    hide TailGraph, Suits, Released, Planning;
    var j, s, n := TailJob(), TailStage(1), Rec(0, 0, 0, false);
    var u := State([Rec(1, 0, 0, false), Rec(0, 0, 0, true), n, n], TailStage(2).heaps);
    TailTensor(0);
    TailTensor(1);
    TailSuits(s);
    TailSuits(u);
    TailIsReleased();
    assert HandedOver(s.hash, 0, 1) == u.hash;
    assert Reused(j, s, 1, 0) == Some(u);
    AlreadyPlaced(j, s, 0);
    assert Uncounted(u.hash, 0) == TailStage(2).hash;
    TurnWithSource(j, s, 1, 0, 0, u, TailStage(2));
  }

  lemma TailTurn2()
    ensures Suits(TailJob(), TailStage(2)) && Planning(TailJob(), TailStage(2), 2, 0) == Some(TailStage(3))
  {
    hide TailGraph, Suits, Allocated, Planning, Placing;
    var j, s, u := TailJob(), TailStage(2), TailStage(3);
    TailTensor(2);
    TailSuits(s);
    HoleGrant(Block(40, 32), Block(64, 960), 64);
    PlacedFresh(j, s, 2, Grant(0, 40, u.heaps[0]), u);
    TurnWithoutSource(j, s, 2, 0, u);
  }

  lemma TailTurn3()
    ensures Suits(TailJob(), TailStage(3)) && Planning(TailJob(), TailStage(3), 3, 0) == Some(TailStage(4))
  {
    hide TailGraph, Suits, Allocated, Planning, Placing;
    var j, s, u := TailJob(), TailStage(3), TailStage(4);
    TailTensor(3);
    TailSuits(s);
    OnlyGrant(64, 960, 72, 32);
    PlacedFresh(j, s, 3, Grant(0, 64, u.heaps[0]), u);
    TurnWithoutSource(j, s, 3, 0, u);
  }

  lemma TailIsPlanned()
    ensures Suits(TailJob(), State(Blank(TailGraph()), [[]]))
    ensures PlannedGraph(TailJob(), [[]], None, None) == Some(TailStage(4))
  {
    hide TailGraph, Counting, PlanningAll, Planning, Suits;
    var j := TailJob();
    TailTensor(0);
    TailCounts();
    TailTurn0();
    TailTurn1();
    TailTurn2();
    TailTurn3();
    FourTurns(j, TailStage(0), TailStage(1), TailStage(2), TailStage(3), TailStage(4));
    assert PlacingLeafs(j, State(Blank(j.g), [[]]), None, 0) == Some(State(Blank(j.g), [[]]));
  }

  /** The last two tensors are both there to stay, at bytes 40 to 72 and 64 to 96. */
  lemma TailOverlaps()
    ensures var g := TailGraph();
            && g.WellFormed() && Sized(g, [32]) && Suits(TailJob(), State(Blank(g), [[]]))
            && PlannedGraph(TailJob(), [[]], None, None) == Some(TailStage(4))
            && !SafePlan(g, PlanOf(g, TailStage(4).hash))
  {
    hide TailGraph, PlannedGraph, Graph.WellFormed;
    TailWellFormed();
    TailIsPlanned();
    TailTensor(2);
    TailTensor(3);
    var g, plan := TailGraph(), PlanOf(TailGraph(), TailStage(4).hash);
    TailSurvivor();
    assert plan[2] == Addr(0, 0, 40) && plan[3] == Addr(0, 0, 64);
    assert !Disjoint(g, plan, g.nodes[3], 2);
  }

  lemma TailSurvivor()
    ensures TailGraph().InRange() && |TailGraph().nodes| == |TailGraph().tensors| == 4 && MustSurvive(TailGraph(), 3, 2)
  {
    hide TailGraph;
    var g := TailGraph();
    TailSuits(TailStage(0));
    TailTensor(2);
    TailTensor(3);
    assert g.nodes[..3][2] == 2;
    forall j, k | 0 <= j < 4 && 0 <= k < |g.tensors[g.nodes[j]].src| ensures g.Root(g.tensors[g.nodes[j]].src[k]) != 2 {
      TailTensor(j);
      TailTensor(0);
    }
    assert g.Keeps(2);
  }
}
