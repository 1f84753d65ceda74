/** A graph planned step by step: the planner gives the memory of an output away. */
module PlannerRuns {
  import opened Wrappers
  import opened FreeBlocks
  import opened AllocRuns
  import opened GraphPlan
  import opened GraphOutputs
  import opened PlannerMemory
  import opened PlannerSafety
  import opened PlannerSpec

  // ---- one turn for a node with at most one source ----

  lemma TurnWithoutSource(j: Job, s: State, i: nat, b: nat, u: State)
    requires Suits(j, s) && i < |j.g.nodes| && b < |j.aligns| && j.g.tensors[j.g.nodes[i]].src == []
    requires Placing(j, s, j.g.nodes[i], b) == Some(u)
    ensures Planning(j, s, i, b) == Some(u)
  {
    hide Suits, Placing;
    assert PlacingParents(j, s, i, b, 0) == Some(s);
    assert DroppingParents(j, u, i, 0) == Some(u);
  }

  lemma TurnWithSource(j: Job, s: State, i: nat, b: nat, x: nat, u: State, v: State)
    requires Suits(j, s) && i < |j.g.nodes| && b < |j.aligns| && j.g.tensors[j.g.nodes[i]].src == [x] && x < |s.hash|
    requires Placing(j, s, x, b) == Some(s) && Placing(j, s, j.g.nodes[i], b) == Some(u)
    requires Suits(j, u) && Dropping(j, u, x) == Some(v)
    ensures Planning(j, s, i, b) == Some(v)
  {
    hide Suits, Placing, Dropping;
    assert PlacingParents(j, s, i, b, 1) == Some(s);
    assert PlacingParents(j, s, i, b, 0) == Some(s);
    assert DroppingParents(j, v, i, 1) == Some(v);
    assert DroppingParents(j, u, i, 0) == Some(v);
  }

  lemma CountWithoutSource(j: Job, s: State, i: nat, b: nat)
    requires Suits(j, s) && i < |j.g.nodes| && b < |j.aligns|
    requires j.g.tensors[j.g.nodes[i]].src == [] && !j.g.tensors[j.g.nodes[i]].input
    ensures CountingNode(j, s, i, b) == Some(s.(hash := ViewCounted(j.g, s.hash, j.g.nodes[i])))
  {
    hide ViewCounted;
    var u := s.(hash := ViewCounted(j.g, s.hash, j.g.nodes[i]));
    SameSuits(j, s, u);
    assert CountingSources(j, u, i, b, 0) == Some(u);
  }

  lemma CountWithSource(j: Job, s: State, i: nat, b: nat, x: nat)
    requires Suits(j, s) && i < |j.g.nodes| && b < |j.aligns| && x < |s.hash|
    requires j.g.tensors[j.g.nodes[i]].src == [x] && !j.g.tensors[j.g.nodes[i]].input && !j.g.tensors[x].input
    ensures CountingNode(j, s, i, b) == Some(s.(hash := SourceCounted(ViewCounted(j.g, s.hash, j.g.nodes[i]), x)))
  {
    hide ViewCounted;
    var u := s.(hash := ViewCounted(j.g, s.hash, j.g.nodes[i]));
    var v := u.(hash := SourceCounted(u.hash, x));
    SameSuits(j, s, u);
    SameSuits(j, s, v);
    assert PlacingInput(j, v, x, b) == Some(v);
    assert CountingSources(j, v, i, b, 1) == Some(v);
    assert CountingSources(j, u, i, b, 0) == Some(v);
  }

  lemma SameSuits(j: Job, s: State, u: State)
    requires Suits(j, s) && |u.hash| == |s.hash| && |u.heaps| == |s.heaps|
    ensures Suits(j, u)
  {
  }

  /** A graph of four nodes, no leaf and one buffer type, turn by turn. */
  lemma FourTurns(j: Job, s: State, a: State, b: State, c: State, d: State)
    requires Suits(j, s) && Suits(j, a) && Suits(j, b) && Suits(j, c) && |j.g.nodes| == 4 && |j.aligns| > 0
    requires Planning(j, s, 0, 0) == Some(a) && Planning(j, a, 1, 0) == Some(b)
    requires Planning(j, b, 2, 0) == Some(c) && Planning(j, c, 3, 0) == Some(d)
    ensures PlanningAll(j, s, None, 0) == Some(d)
  {
    hide Suits, Planning;
    assert PlanningAll(j, d, None, 4) == Some(d);
    assert PlanningAll(j, c, None, 3) == Some(d);
    assert PlanningAll(j, b, None, 2) == Some(d);
    assert PlanningAll(j, a, None, 1) == Some(d);
  }

  lemma FourCounts(j: Job, s: State, a: State, b: State, c: State, d: State)
    requires Suits(j, s) && Suits(j, a) && Suits(j, b) && Suits(j, c) && |j.g.nodes| == 4 && |j.aligns| > 0
    requires CountingNode(j, s, 0, 0) == Some(a) && CountingNode(j, a, 1, 0) == Some(b)
    requires CountingNode(j, b, 2, 0) == Some(c) && CountingNode(j, c, 3, 0) == Some(d)
    ensures Counting(j, s, None, 0) == Some(d)
  {
    hide Suits, CountingNode;
    assert Counting(j, d, None, 4) == Some(d);
    assert Counting(j, c, None, 3) == Some(d);
    assert Counting(j, b, None, 2) == Some(d);
    assert Counting(j, a, None, 1) == Some(d);
  }

  function Rec(children: int, views: int, offset: nat, owned: bool): HashNode {
    HashNode(children, views, Addr(0, 0, offset), owned)
  }

  /** Four records, and one buffer type with one chunk of 1024 bytes. */
  function Stage(hash: seq<HashNode>, blocks: seq<Block>, maxSize: nat): State {
    State(hash, [[ChunkState(blocks, maxSize, 1024)]])
  }

  // ---- allocation, with the free lists at hand ----

  /** The first allocation opens a chunk. */
  lemma FirstGrant(size: nat)
    requires 0 < size < 1024
    ensures Allocated([], 1024, size) == Some(Grant(0, 0, [ChunkState([Block(size, 1024 - size)], size, 1024)]))
  {
    NewIsChosen([], size);
    var g := Grown([], 0, 1024, size);
    assert g == [ChunkState([Block(0, 1024)], 0, 1024)];
    AllocatedIs([], 1024, size, 0, 0);
    assert TakeFrom(g[0], 0, size) == ChunkState([Block(size, 1024 - size)], size, 1024);
    assert g[0 := TakeFrom(g[0], 0, size)] == [ChunkState([Block(size, 1024 - size)], size, 1024)];
  }

  /** The only block is cut. */
  lemma OnlyGrant(offset: nat, left: nat, maxSize: nat, size: nat)
    requires 0 < size < left && maxSize <= offset + size
    ensures var st := [ChunkState([Block(offset, left)], maxSize, 1024)];
            Allocated(st, 1024, size) ==
              Some(Grant(0, offset, [ChunkState([Block(offset + size, left - size)], offset + size, 1024)]))
  {
    var st := [ChunkState([Block(offset, left)], maxSize, 1024)];
    assert FitsLast(st, size, 0);
    LastIsChosen(st, size, 0);
    AllocatedIs(st, 1024, size, 0, 0);
    var ch := ChunkState([Block(offset + size, left - size)], offset + size, 1024);
    assert Grown(st, 0, 1024, size) == st && TakeFrom(st[0], 0, size) == ch;
    assert st[0 := ch] == [ch];
  }

  /** The first of two blocks fits exactly. */
  lemma HoleGrant(b: Block, last: Block, maxSize: nat)
    requires b.size > 0
    ensures var st := [ChunkState([b, last], maxSize, 1024)];
            Allocated(st, 1024, b.size) ==
              Some(Grant(0, b.offset, [ChunkState([last], if b.End() > maxSize then b.End() else maxSize, 1024)]))
  {
    var st := [ChunkState([b, last], maxSize, 1024)];
    assert Fits(st, b.size, 0, 0);
    FitIsChosen(st, b.size, 0, 0);
    AllocatedIs(st, 1024, b.size, 0, 0);
    var ch := ChunkState([last], if b.End() > maxSize then b.End() else maxSize, 1024);
    assert Take(st[0].blocks, 0, b.size) == [last];
    assert Grown(st, 0, 1024, b.size) == st && TakeFrom(st[0], 0, b.size) == ch;
    assert st[0 := ch] == [ch];
  }

  lemma PlacedFresh(j: Job, s: State, t: nat, x: Grant, u: State)
    requires Suits(j, s) && t < |s.hash| && |j.aligns| == 1 && j.g.WellSized(t)
    requires !s.hash[t].owned && j.g.Managed(t) && !(j.g.tensors[t].op.Op? && j.g.tensors[t].op.inplace)
    requires Allocated(s.heaps[0], j.maxes[0], Padded(j.g, j.aligns, t, 0)) == Some(x)
    requires u.hash == s.hash[t := s.hash[t].(addr := Addr(0, x.chunk, x.offset), owned := true)] && u.heaps == [x.chunks]
    ensures Placing(j, s, t, 0) == Some(u)
  {
    hide Allocated;
    assert s.heaps[0 := x.chunks] == u.heaps;
    assert Fresh(j, s, t, 0) == Some(u);
  }

  // ---- the output view that is read ----

  /** Planning `ReadViewGraph` with alignment 8 and chunks of 1024 bytes. */
  function ViewJob(): Job {
    Job(ReadViewGraph(), [8], [1024])
  }

  lemma ViewSuits(s: State)
    requires |s.hash| == 4 && |s.heaps| == 1
    ensures Suits(ViewJob(), s)
  {
    var g := ReadViewGraph();
    forall t | 0 <= t < |g.tensors| ensures g.WellSized(t) {
      ReadViewNode(t);
    }
    ReadViewNode(0);
  }

  function Counted4(): seq<HashNode> {
    [Rec(1, 1, 0, false), Rec(1, 0, 0, false), Rec(1, 0, 0, false), Rec(0, 0, 0, false)]
  }

  lemma ViewCounts()
    ensures Suits(ViewJob(), State(Blank(ReadViewGraph()), [[]]))
    ensures Counting(ViewJob(), State(Blank(ReadViewGraph()), [[]]), None, 0) == Some(State(Counted4(), [[]]))
  {
    var j, n := ViewJob(), Rec(0, 0, 0, false);
    var s := State(Blank(j.g), [[]]);
    var b := State([Rec(1, 1, 0, false), n, n, n], [[]]);
    var c := State([Rec(1, 1, 0, false), Rec(1, 0, 0, false), n, n], [[]]);
    ViewSuits(s);
    ViewSuits(b);
    ViewSuits(c);
    assert s.hash == [n, n, n, n];
    CountWithoutSource(j, s, 0, 0);
    CountWithSource(j, s, 1, 0, 0);
    CountWithSource(j, b, 2, 0, 1);
    CountWithSource(j, c, 3, 0, 2);
    assert SourceCounted(ViewCounted(j.g, s.hash, 1), 0) == b.hash;
    assert SourceCounted(ViewCounted(j.g, b.hash, 2), 1) == c.hash;
    assert SourceCounted(ViewCounted(j.g, c.hash, 3), 2) == Counted4();
    FourCounts(j, s, s, b, c, State(Counted4(), [[]]));
  }

  /** The stages between the turns. */
  function ViewStage(i: nat): (s: State)
    requires i <= 4
    ensures |s.hash| == 4 && |s.heaps| == 1
  {
    var n, u := Rec(0, 0, 0, false), Rec(1, 0, 0, false);
    if i == 0 then State(Counted4(), [[]])
    else if i == 1 then Stage([Rec(1, 1, 0, true), u, u, n], [Block(8, 1016)], 8)
    else if i == 2 then Stage([Rec(0, 1, 0, true), u, u, n], [Block(8, 1016)], 8)
    else if i == 3 then Stage([n, n, Rec(1, 0, 8, true), n], [Block(0, 8), Block(16, 1008)], 16)
    else Stage([n, n, Rec(0, 0, 8, false), Rec(0, 0, 0, true)], [Block(8, 1016)], 16)
  }

  lemma ViewTensor(i: nat)
    requires i < 4
    ensures var g := ReadViewGraph(); |g.nodes| == |g.tensors| == 4 && g.leafs == [] && g.nodes[i] == i
    ensures var x := ReadViewGraph().tensors[i];
            && x.src == (if i == 0 then [] else [i - 1]) && x.viewSrc == (if i == 1 then Some(0) else None)
            && x.op == Op(false, false) && !x.external && !x.input && x.output == (i == 1) && x.sizes == [8]
  {
  }

  /** Node `i` of the graph. */
  lemma ViewNode(i: nat)
    requires i < 4
    ensures var g := ReadViewGraph();
            g.InRange() && Sized(g, [8]) && |g.nodes| == |g.tensors| == 4 && g.leafs == [] && g.nodes[i] == i
    ensures var g := ReadViewGraph();
            && g.WellSized(i) && g.tensors[i].src == (if i == 0 then [] else [i - 1])
            && !g.tensors[i].external && g.IsView(i) == (i == 1) && !g.tensors[i].op.inplace && g.tensors[i].op.Op?
            && !g.tensors[i].input && g.tensors[i].output == (i == 1) && (i == 1 ==> g.Root(i) == 0)
            && g.tensors[i].sizes == [8]
  {
    hide ReadViewGraph;
    ViewSuits(ViewStage(0));
    ViewTensor(i);
  }

  lemma ViewTurn0()
    ensures Suits(ViewJob(), ViewStage(0)) && Planning(ViewJob(), ViewStage(0), 0, 0) == Some(ViewStage(1))
  {
    hide ReadViewGraph, Suits, Allocated, Planning, Placing;
    var j, s, u := ViewJob(), ViewStage(0), ViewStage(1);
    ViewNode(0);
    ViewSuits(s);
    FirstGrant(8);
    PlacedFresh(j, s, 0, Grant(0, 0, u.heaps[0]), u);
    TurnWithoutSource(j, s, 0, 0, u);
  }

  /** A tensor that has its memory, or is a view, is left as it is. */
  lemma AlreadyPlaced(j: Job, s: State, t: nat)
    requires Suits(j, s) && t < |s.hash| && |j.aligns| == 1 && (s.hash[t].owned || j.g.IsView(t))
    ensures Placing(j, s, t, 0) == Some(s)
  {
  }

  /** The view needs no memory, and the tensor behind it stays while the view is open. */
  lemma ViewTurn1()
    ensures Suits(ViewJob(), ViewStage(1)) && Planning(ViewJob(), ViewStage(1), 1, 0) == Some(ViewStage(2))
  {
    hide ReadViewGraph, Suits, Planning, Placing, Freeing, ViewClosed;
    var j, s, v := ViewJob(), ViewStage(1), ViewStage(2);
    ViewNode(0);
    ViewNode(1);
    ViewSuits(s);
    AlreadyPlaced(j, s, 0);
    AlreadyPlaced(j, s, 1);
    assert Uncounted(s.hash, 0) == v.hash;
    TurnWithSource(j, s, 1, 0, 0, s, v);
  }

  /** The last read of the view closes it: the tensor behind it is freed, output or not. */
  lemma ViewTurn2()
    ensures Suits(ViewJob(), ViewStage(2)) && Planning(ViewJob(), ViewStage(2), 2, 0) == Some(ViewStage(3))
  {
    hide ReadViewGraph, Suits, Allocated, Planning, Placing, Dropping;
    var j, s, v := ViewJob(), ViewStage(2), ViewStage(3);
    var u := Stage(s.hash[2 := Rec(1, 0, 8, true)], [Block(16, 1008)], 16);
    ViewNode(1);
    ViewNode(2);
    ViewPlace2(u);
    AlreadyPlaced(j, s, 1);
    ViewDrop2(u);
    TurnWithSource(j, s, 2, 0, 1, u, v);
  }

  lemma ViewPlace2(u: State)
    requires u == Stage(ViewStage(2).hash[2 := Rec(1, 0, 8, true)], [Block(16, 1008)], 16)
    ensures Suits(ViewJob(), ViewStage(2)) && Placing(ViewJob(), ViewStage(2), 2, 0) == Some(u)
  {
    hide ReadViewGraph, Suits, Allocated, Placing;
    ViewNode(2);
    ViewSuits(ViewStage(2));
    OnlyGrant(8, 1016, 8, 8);
    PlacedFresh(ViewJob(), ViewStage(2), 2, Grant(0, 8, u.heaps[0]), u);
  }

  lemma Gives(ch: ChunkState, offset: nat, size: nat, ch': ChunkState)
    requires GiveBack(ch, offset, size) == ch' && |ch'.blocks| <= MAX_FREE_BLOCKS
    ensures Released([[ch]], Addr(0, 0, offset), size) == Some([[ch']])
  {
    assert [ch][0 := ch'] == [ch'];
    assert [[ch]][0 := [ch']] == [[ch']];
  }

  lemma Freed4(h: seq<HashNode>, ch: ChunkState, t: nat, v: State)
    requires |h| == 4 && t in {0, 2} && h[t].addr.buffer == 0 && Released([[ch]], h[t].addr, 8) == Some(v.heaps)
    requires v.hash == h[t := h[t].(owned := false)]
    ensures Suits(ViewJob(), State(h, [[ch]])) && Freeing(ViewJob(), State(h, [[ch]]), t) == Some(v)
  {
    hide ReadViewGraph, Suits, Released;
    ViewNode(t);
    ViewSuits(State(h, [[ch]]));
  }

  lemma ViewDrop2(u: State)
    requires u == Stage(ViewStage(2).hash[2 := Rec(1, 0, 8, true)], [Block(16, 1008)], 16)
    ensures Suits(ViewJob(), u) && Dropping(ViewJob(), u, 1) == Some(ViewStage(3))
  {
    hide ReadViewGraph, Suits, Released, Freeing, GiveBack;
    var j, v, n := ViewJob(), ViewStage(3), Rec(0, 0, 0, false);
    var h := [Rec(0, 0, 0, true), n, Rec(1, 0, 8, true), n];
    var ch := u.heaps[0][0];
    ViewNode(1);
    ViewSuits(u);
    HoleOpens(ch, v.heaps[0][0]);
    Gives(ch, 0, 8, v.heaps[0][0]);
    Freed4(h, ch, 0, v);
    assert ViewClosed(Uncounted(u.hash, 1), 0) == h;
  }

  lemma HoleOpens(ch: ChunkState, ch': ChunkState)
    requires ch == ChunkState([Block(16, 1008)], 16, 1024) && ch' == ChunkState([Block(0, 8), Block(16, 1008)], 16, 1024)
    ensures GiveBack(ch, 0, 8) == ch'
  {
    ReleaseInserts(ch.blocks, 0, 0, 8);
    assert InsertPos(ch.blocks, 0) == 0;
    assert Insert(ch.blocks, Block(0, 8)) == ch'.blocks;
  }

  /** The hole is the tightest block for the last node. */
  lemma ViewTurn3()
    ensures Suits(ViewJob(), ViewStage(3)) && Planning(ViewJob(), ViewStage(3), 3, 0) == Some(ViewStage(4))
  {
    hide ReadViewGraph, Suits, Allocated, Planning, Placing, Dropping;
    var j, s, v := ViewJob(), ViewStage(3), ViewStage(4);
    var u := Stage(s.hash[3 := Rec(0, 0, 0, true)], [Block(16, 1008)], 16);
    ViewNode(2);
    ViewNode(3);
    ViewSuits(s);
    HoleGrant(Block(0, 8), Block(16, 1008), 16);
    PlacedFresh(j, s, 3, Grant(0, 0, u.heaps[0]), u);
    AlreadyPlaced(j, s, 2);
    ViewDrop3(u);
    TurnWithSource(j, s, 3, 0, 2, u, v);
  }

  lemma ViewDrop3(u: State)
    requires u == Stage(ViewStage(3).hash[3 := Rec(0, 0, 0, true)], [Block(16, 1008)], 16)
    ensures Suits(ViewJob(), u) && Dropping(ViewJob(), u, 2) == Some(ViewStage(4))
  {
    hide ReadViewGraph, Suits, Released, Freeing, GiveBack;
    var j, v, n := ViewJob(), ViewStage(4), Rec(0, 0, 0, false);
    var h := [n, n, Rec(0, 0, 8, true), Rec(0, 0, 0, true)];
    var ch := u.heaps[0][0];
    ViewNode(2);
    ViewSuits(u);
    BlockGrows(ch, v.heaps[0][0]);
    Gives(ch, 8, 8, v.heaps[0][0]);
    Freed4(h, ch, 2, v);
    assert Uncounted(u.hash, 2) == h;
  }

  lemma BlockGrows(ch: ChunkState, ch': ChunkState)
    requires ch == ChunkState([Block(16, 1008)], 16, 1024) && ch' == ChunkState([Block(8, 1016)], 16, 1024)
    ensures GiveBack(ch, 8, 8) == ch'
  {
    assert ch.blocks[0 := Block(8, 1016)] == ch'.blocks;
  }

  /** The planner gives the last node the memory behind the output view. */
  lemma ViewIsPlanned()
    ensures Suits(ViewJob(), State(Blank(ReadViewGraph()), [[]]))
    ensures PlannedGraph(ViewJob(), [[]], None, None) == Some(ViewStage(4))
    ensures ViewStage(4).hash[3].addr == ViewStage(4).hash[0].addr
  {
    hide ReadViewGraph, Counting, PlanningAll, Planning, Suits;
    var j := ViewJob();
    ViewNode(0);
    ViewCounts();
    ViewTurn0();
    ViewTurn1();
    ViewTurn2();
    ViewTurn3();
    FourTurns(j, ViewStage(0), ViewStage(1), ViewStage(2), ViewStage(3), ViewStage(4));
    assert PlacingLeafs(j, State(Blank(j.g), [[]]), None, 0) == Some(State(Blank(j.g), [[]]));
  }

  ghost function ViewPlan(): Plan
  {
    PlanOf(ReadViewGraph(), ViewStage(4).hash)
  }

  lemma ViewPlanIs()
    ensures ViewPlan() == map[0 := Addr(0, 0, 0), 2 := Addr(0, 0, 8), 3 := Addr(0, 0, 0)]
  {
    hide ReadViewGraph;
    var g := ReadViewGraph();
    ViewTensor(0);
    ViewTensor(1);
    ViewTensor(2);
    ViewTensor(3);
  }

  /** The first node is not needed once the last one is placed. */
  lemma LastSparesNothing()
    ensures var g := ReadViewGraph(); g.InRange() && |g.tensors| == |g.nodes| == 4 && !MustSurvive(g, 3, 0)
  {
    hide ReadViewGraph, Graph.Needed, Graph.Present;
    ViewNode(0);
    ViewNode(1);
    ReadViewIsOverwritten();
  }

  lemma LastIsNotThere()
    ensures var g := ReadViewGraph(); g.InRange() && |g.tensors| == |g.nodes| == 4 && !MustSurvive(g, 0, 3)
  {
    hide ReadViewGraph, Graph.Needed;
    ViewNode(3);
  }

  lemma ApartInView(t: nat, u: nat)
    requires t in {0, 2, 3} && u in {0, 2, 3} && t != u && (t == 2 || u == 2)
    ensures Disjoint(ReadViewGraph(), ViewPlan(), t, u)
  {
    hide ReadViewGraph, ViewPlan;
    ViewPlanIs();
    ViewTensor(t);
    ViewTensor(u);
  }

  lemma SurvivorApart(i: nat, t: nat)
    requires i < 4 && t < 4 && ReadViewGraph().InRange() && |ReadViewGraph().nodes| == |ReadViewGraph().tensors| == 4
    requires MustSurvive(ReadViewGraph(), i, t)
    ensures ReadViewGraph().nodes[i] == i && Disjoint(ReadViewGraph(), ViewPlan(), i, t)
  {
    hide ReadViewGraph, ViewPlan, Disjoint, Graph.Needed, Graph.Present;
    ViewNode(i);
    ViewNode(t);
    LastSparesNothing();
    LastIsNotThere();
    ApartInView(i, t);
  }

  lemma SourceApartInView(i: nat, k: nat)
    requires i < 4 && ReadViewGraph().InRange() && |ReadViewGraph().nodes| == |ReadViewGraph().tensors| == 4
    requires k < |ReadViewGraph().tensors[ReadViewGraph().nodes[i]].src| && ReadsWhileWriting(ReadViewGraph(), i, k)
    ensures SourceApart(ReadViewGraph(), ViewPlan(), i, k)
  {
    hide ReadViewGraph, ViewPlan, Disjoint, TakenOver;
    ViewNode(i);
    if i > 0 { ViewNode(i - 1); }
    ApartInView(i, if i == 2 then 0 else 2);
  }

  lemma ViewIsPlaced(t: nat)
    requires t < 4
    ensures var g := ReadViewGraph();
            && |g.tensors| == |g.nodes| == 4 && !g.Given(t)
            && (g.Managed(t) ==> t in ViewPlan() && ViewPlan()[t].buffer < |g.tensors[t].sizes|)
  {
    hide ReadViewGraph, ViewPlan;
    ViewPlanIs();
    ViewTensor(t);
  }

  lemma ViewPlanIsSafe()
    ensures ReadViewGraph().InRange() && SafePlan(ReadViewGraph(), ViewPlan())
  {
    hide ReadViewGraph, ViewPlan, Disjoint, MustSurvive, SourceApart, ReadsWhileWriting, Graph.Given;
    var g, plan := ReadViewGraph(), ViewPlan();
    ViewNode(0);
    forall t | 0 <= t < 4 ensures !g.Given(t) && (g.Managed(t) ==> t in plan && plan[t].buffer < |g.tensors[t].sizes|) {
      ViewIsPlaced(t);
    }
    forall i, t | 0 <= i < |g.nodes| && 0 <= t < |g.tensors| && MustSurvive(g, i, t) ensures Disjoint(g, plan, g.nodes[i], t) {
      SurvivorApart(i, t);
    }
    forall i, k | 0 <= i < |g.nodes| && 0 <= k < |g.tensors[g.nodes[i]].src| && ReadsWhileWriting(g, i, k)
      ensures SourceApart(g, plan, i, k)
    {
      SourceApartInView(i, k);
    }
  }

  lemma ViewIsPlannable()
    ensures Plannable(ReadViewGraph(), [8])
  {
    hide ReadViewGraph, Graph.WellFormed;
    var g := ReadViewGraph();
    ReadViewWellFormed();
    ViewNode(0);
    forall t | 0 <= t < |g.tensors| ensures g.tensors[t].sizes == [8] && g.WellSized(t) && Addressable(g, [8], t) {
      ViewNode(t);
    }
  }

  lemma LastNodeHits()
    ensures ReadViewGraph().InRange() && |ReadViewGraph().nodes| == |ReadViewGraph().tensors| == 4
    ensures Hits(ReadViewGraph(), ViewPlan(), 3, 1)
  {
    hide ReadViewGraph, ViewPlan, Graph.Present;
    ViewNode(3);
    ViewNode(0);
    ViewNode(1);
    ViewPlanIs();
    ReadViewIsOverwritten();
    ViewLength(1);
    ViewLength(3);
  }

  lemma ViewLength(i: nat)
    requires i < 4
    ensures |ReadViewGraph().tensors| == 4 && ReadViewGraph().tensors[i].len == 8 && ReadViewGraph().tensors[i].viewOffs == 0
  {
  }

  /** So the planner's own plan, which is safe, loses an output. */
  lemma PlannerLosesOutput()
    ensures var g, plan := ReadViewGraph(), ViewPlan();
            && Plannable(g, [8]) && Suits(ViewJob(), State(Blank(g), [[]]))
            && PlannedGraph(ViewJob(), [[]], None, None) == Some(ViewStage(4)) && plan == PlanOf(g, ViewStage(4).hash)
            && SafePlan(g, plan) && g.tensors[1].output && !TrueUnder(g, plan, 1)
  {
    hide ReadViewGraph, PlanOf, Plannable, SafePlan, Suits, PlannedGraph, Hits, TrueUnder, Graph.WellFormed;
    ViewIsPlannable();
    ViewIsPlanned();
    ViewPlanIsSafe();
    ViewNode(1);
    ReadViewWellFormed();
    LastNodeHits();
    KeptUnderPlanIff(ReadViewGraph(), ViewPlan(), 1);
  }
}
