/** Dynamic time warping of tokens against audio frames, and the token times read off the path. */
module Dtw {

  /** Path costs start at infinity everywhere but in the corner. */
  datatype Cost = Inf | Fin(value: real)

  predicate Less(a: Cost, b: Cost) {
    a.Fin? && (b.Inf? || a.value < b.value)
  }

  function Plus(c: Cost, r: real): Cost {
    if c.Inf? then Inf else Fin(r + c.value)
  }

  ghost predicate Rect(x: seq<seq<real>>, N: nat, M: nat) {
    |x| == N && forall i :: 0 <= i < N ==> |x[i]| == M
  }

  // ---- the cost table ----

  /** Which neighbour a cell continues from: 0 diagonal, 1 the cell before in the tokens, 2 the
      cell before in the frames.  On a tie it is always 2. */
  function Choose(c0: Cost, c1: Cost, c2: Cost): (t: nat)
    ensures t <= 2
  {
    if Less(c0, c1) && Less(c0, c2) then 0
    else if Less(c1, c0) && Less(c1, c2) then 1
    else 2
  }

  function Pick(c0: Cost, c1: Cost, c2: Cost): Cost {
    match Choose(c0, c1, c2)
    case 0 => c0
    case 1 => c1
    case _ => c2
  }

  ghost function Table(x: seq<seq<real>>, N: nat, M: nat, i: nat, j: nat): Cost
    requires Rect(x, N, M) && i <= N && j <= M
  {
    if i == 0 && j == 0 then Fin(0.0)
    else if i == 0 || j == 0 then Inf
    else Plus(Pick(Table(x, N, M, i - 1, j - 1), Table(x, N, M, i - 1, j), Table(x, N, M, i, j - 1)), x[i - 1][j - 1])
  }

  ghost function Move(x: seq<seq<real>>, N: nat, M: nat, i: nat, j: nat): (t: nat)
    requires Rect(x, N, M) && 0 < i <= N && 0 < j <= M
    ensures t <= 2
  {
    Choose(Table(x, N, M, i - 1, j - 1), Table(x, N, M, i - 1, j), Table(x, N, M, i, j - 1))
  }

  lemma {:induction false} TableFinite(x: seq<seq<real>>, N: nat, M: nat, i: nat, j: nat)
    requires Rect(x, N, M) && 0 < i <= N && 0 < j <= M
    ensures Table(x, N, M, i, j).Fin?
    decreases i + j
  {
    if i > 1 { TableFinite(x, N, M, i - 1, j); }
    if j > 1 { TableFinite(x, N, M, i, j - 1); }
    if i > 1 && j > 1 { TableFinite(x, N, M, i - 1, j - 1); }
  }

  /** The way back leaves the inside of the table only from the first cell, through the corner. */
  lemma MoveStaysInside(x: seq<seq<real>>, N: nat, M: nat, i: nat, j: nat)
    requires Rect(x, N, M) && 0 < i <= N && 0 < j <= M
    ensures i == 1 && j == 1 ==> Move(x, N, M, i, j) == 0
    ensures Move(x, N, M, i, j) == 0 ==> (i == 1 <==> j == 1)
    ensures Move(x, N, M, i, j) == 1 ==> i > 1
    ensures Move(x, N, M, i, j) == 2 ==> j > 1
  {
    if i > 1 { TableFinite(x, N, M, i - 1, j); }
    if j > 1 { TableFinite(x, N, M, i, j - 1); }
    if i > 1 && j > 1 { TableFinite(x, N, M, i - 1, j - 1); }
  }

  // ---- paths ----

  /** A token matched to a frame. */
  datatype Match = Match(token: nat, frame: nat)

  predicate Step(a: Match, b: Match) {
    && a.token <= b.token <= a.token + 1
    && a.frame <= b.frame <= a.frame + 1
    && a != b
  }

  /** A monotone path from the first cell to cell `(i, j)`. */
  ghost predicate Path(p: seq<Match>, i: nat, j: nat) {
    && |p| > 0 && p[0] == Match(0, 0) && p[|p| - 1] == Match(i, j)
    && forall k :: 0 < k < |p| ==> Step(p[k - 1], p[k])
  }

  lemma {:induction false} PathInside(p: seq<Match>, i: nat, j: nat, k: nat)
    requires Path(p, i, j) && k < |p|
    ensures p[k].token <= i && p[k].frame <= j
    decreases |p| - k
  {
    if k + 1 < |p| {
      PathInside(p, i, j, k + 1);
      assert Step(p[k + 1 - 1], p[k + 1]);
    }
  }

  lemma PathInit(p: seq<Match>, i: nat, j: nat)
    requires Path(p, i, j) && |p| > 1
    ensures var q := p[|p| - 2]; Path(p[..|p| - 1], q.token, q.frame) && Step(q, Match(i, j))
  {
    assert Step(p[|p| - 1 - 1], p[|p| - 1]);
  }

  lemma PathStart()
    ensures Path([Match(0, 0)], 0, 0)
  {
  }

  lemma PathExtend(p: seq<Match>, i: nat, j: nat, i': nat, j': nat)
    requires Path(p, i, j) && Step(Match(i, j), Match(i', j'))
    ensures Path(p + [Match(i', j')], i', j')
  {
  }

  ghost predicate Inside(x: seq<seq<real>>, N: nat, M: nat, p: seq<Match>) {
    Rect(x, N, M) && forall k :: 0 <= k < |p| ==> p[k].token < N && p[k].frame < M
  }

  ghost function PathCost(x: seq<seq<real>>, N: nat, M: nat, p: seq<Match>): real
    requires Inside(x, N, M, p)
  {
    if p == [] then 0.0
    else
      var last := p[|p| - 1];
      PathCost(x, N, M, p[..|p| - 1]) + x[last.token][last.frame]
  }

  // ---- the path the table encodes ----

  /** The matches on the way from `(i, j)` back to the corner, first match first. */
  ghost function Traced(x: seq<seq<real>>, N: nat, M: nat, i: nat, j: nat): (p: seq<Match>)
    requires Rect(x, N, M) && i <= N && j <= M && (i == 0 <==> j == 0)
    ensures |p| <= i + j && (i > 0 ==> |p| < i + j)
    decreases i + j
  {
    if i == 0 then []
    else
      MoveStaysInside(x, N, M, i, j);
      var t := Move(x, N, M, i, j);
      Traced(x, N, M, if t == 2 then i else i - 1, if t == 1 then j else j - 1) + [Match(i - 1, j - 1)]
  }

  /** It is a path to its cell, and its cost is the cell's entry. */
  lemma {:induction false} TracedIsPath(x: seq<seq<real>>, N: nat, M: nat, i: nat, j: nat)
    requires Rect(x, N, M) && 0 < i <= N && 0 < j <= M
    ensures var p := Traced(x, N, M, i, j);
            && Path(p, i - 1, j - 1) && Inside(x, N, M, p)
            && Table(x, N, M, i, j) == Fin(PathCost(x, N, M, p))
    decreases i + j
  {
    hide Traced, Table, Move, Inside, PathCost, Path;
    var i', j' := TracedStep(x, N, M, i, j);
    var q, p := Traced(x, N, M, i', j'), Traced(x, N, M, i, j);
    if i' == 0 {
      assert q == [] && p == [Match(0, 0)];
      PathStart();
      CostExtend(x, N, M, q, Match(0, 0));
      assert Table(x, N, M, 0, 0) == Fin(0.0) by { TableCorner(x, N, M); }
    } else {
      TracedIsPath(x, N, M, i', j');
      PathExtend(q, i' - 1, j' - 1, i - 1, j - 1);
      CostExtend(x, N, M, q, Match(i - 1, j - 1));
    }
  }

  lemma CostExtend(x: seq<seq<real>>, N: nat, M: nat, q: seq<Match>, m: Match)
    requires Rect(x, N, M) && (q == [] || Inside(x, N, M, q)) && m.token < N && m.frame < M
    ensures Inside(x, N, M, q) && Inside(x, N, M, q + [m])
    ensures PathCost(x, N, M, q + [m]) == PathCost(x, N, M, q) + x[m.token][m.frame]
    ensures q == [] ==> PathCost(x, N, M, q) == 0.0
  {
    assert (q + [m])[..|q|] == q;
  }

  lemma TracedCorner(x: seq<seq<real>>, N: nat, M: nat)
    requires Rect(x, N, M)
    ensures Traced(x, N, M, 0, 0) == []
  {
  }

  lemma TableCorner(x: seq<seq<real>>, N: nat, M: nat)
    requires Rect(x, N, M)
    ensures Table(x, N, M, 0, 0) == Fin(0.0)
  {
  }

  lemma TracedStep(x: seq<seq<real>>, N: nat, M: nat, i: nat, j: nat) returns (i': nat, j': nat)
    requires Rect(x, N, M) && 0 < i <= N && 0 < j <= M
    ensures i' == (if Move(x, N, M, i, j) == 2 then i else i - 1)
    ensures j' == (if Move(x, N, M, i, j) == 1 then j else j - 1)
    ensures i' == 0 <==> j' == 0
    ensures Traced(x, N, M, i, j) == Traced(x, N, M, i', j') + [Match(i - 1, j - 1)]
    ensures i' == 0 ==> i == j == 1 && Traced(x, N, M, i', j') == []
    ensures Table(x, N, M, i, j) == Plus(Table(x, N, M, i', j'), x[i - 1][j - 1])
    ensures Table(x, N, M, i', j').Fin?
  {
    TableFinite(x, N, M, i, j);
    MoveStaysInside(x, N, M, i, j);
    var t := Move(x, N, M, i, j);
    i', j' := if t == 2 then i else i - 1, if t == 1 then j else j - 1;
  }

  // ---- when the path is the cheapest ----

  /** No path to the cell is cheaper than the cell's entry. */
  ghost predicate Cheapest(x: seq<seq<real>>, N: nat, M: nat, i: nat, j: nat)
    requires Rect(x, N, M) && 0 < i <= N && 0 < j <= M
  {
    forall p :: Path(p, i - 1, j - 1) && Inside(x, N, M, p) ==> NotCheaper(x, N, M, i, j, p)
  }

  ghost predicate NotCheaper(x: seq<seq<real>>, N: nat, M: nat, i: nat, j: nat, p: seq<Match>)
    requires i <= N && j <= M && Inside(x, N, M, p)
  {
    !Less(Fin(PathCost(x, N, M, p)), Table(x, N, M, i, j))
  }

  /** The case the comparisons miss: the first two neighbours tie and beat the third, which is
      the one taken. */
  ghost predicate MissedTie(x: seq<seq<real>>, N: nat, M: nat, i: nat, j: nat)
    requires Rect(x, N, M) && 0 < i <= N && 0 < j <= M
  {
    var c0, c1, c2 := Table(x, N, M, i - 1, j - 1), Table(x, N, M, i - 1, j), Table(x, N, M, i, j - 1);
    c0 == c1 && Less(c0, c2)
  }

  lemma PickIsLeast(c0: Cost, c1: Cost, c2: Cost)
    ensures (c0 == c1 && Less(c0, c2)) <==>
            Less(c0, Pick(c0, c1, c2)) || Less(c1, Pick(c0, c1, c2)) || Less(c2, Pick(c0, c1, c2))
  {
  }

  /** The cells a path to cell `(i, j)` can come through. */
  ghost predicate NoTieUpTo(x: seq<seq<real>>, N: nat, M: nat, i: nat, j: nat)
    requires Rect(x, N, M) && i <= N && j <= M
  {
    forall a, b :: 0 < a <= i && 0 < b <= j ==> !MissedTie(x, N, M, a, b)
  }

  ghost predicate TieAt(x: seq<seq<real>>, N: nat, M: nat, m: Match)
    requires Rect(x, N, M)
  {
    m.token < N && m.frame < M && MissedTie(x, N, M, m.token + 1, m.frame + 1)
  }

  ghost predicate TieFree(x: seq<seq<real>>, N: nat, M: nat, p: seq<Match>)
    requires Rect(x, N, M)
  {
    forall k :: 0 <= k < |p| ==> !TieAt(x, N, M, p[k])
  }

  /** No path that meets no tie is cheaper than the entry. */
  lemma {:induction false} TieFreeBounds(x: seq<seq<real>>, N: nat, M: nat, i: nat, j: nat, p: seq<Match>)
    requires Rect(x, N, M) && 0 < i <= N && 0 < j <= M && TieFree(x, N, M, p)
    requires Path(p, i - 1, j - 1) && Inside(x, N, M, p)
    ensures NotCheaper(x, N, M, i, j, p)
    decreases |p|
  {
    var c0, c1, c2 := Table(x, N, M, i - 1, j - 1), Table(x, N, M, i - 1, j), Table(x, N, M, i, j - 1);
    PickIsLeast(c0, c1, c2);
    assert !TieAt(x, N, M, p[|p| - 1]);
    var q := p[..|p| - 1];
    if |p| == 1 {
      assert q == [];
    } else {
      PathInit(p, i - 1, j - 1);
      var m := p[|p| - 2];
      TieFreeBounds(x, N, M, m.token + 1, m.frame + 1, q);
    }
  }

  lemma NoTieIsCheapest(x: seq<seq<real>>, N: nat, M: nat, i: nat, j: nat, p: seq<Match>)
    requires Rect(x, N, M) && 0 < i <= N && 0 < j <= M && NoTieUpTo(x, N, M, i, j)
    requires Path(p, i - 1, j - 1) && Inside(x, N, M, p)
    ensures NotCheaper(x, N, M, i, j, p)
  {
    forall k | 0 <= k < |p| ensures !TieAt(x, N, M, p[k]) {
      PathInside(p, i - 1, j - 1, k);
    }
    TieFreeBounds(x, N, M, i, j, p);
  }

  /** Optimality, exactly: every cell's entry is the least cost of a path to it if and only if no
      cell sees a diagonal and a token neighbour that tie below its frame neighbour. */
  lemma CheapestIffNoTie(x: seq<seq<real>>, N: nat, M: nat)
    requires Rect(x, N, M)
    ensures (forall i, j :: 0 < i <= N && 0 < j <= M ==> Cheapest(x, N, M, i, j)) <==> NoTieUpTo(x, N, M, N, M)
  {
    if NoTieUpTo(x, N, M, N, M) {
      forall i, j, p | 0 < i <= N && 0 < j <= M && Path(p, i - 1, j - 1) && Inside(x, N, M, p)
        ensures NotCheaper(x, N, M, i, j, p)
      {
        assert forall a, b :: 0 < a <= i && 0 < b <= j ==> !MissedTie(x, N, M, a, b);
        NoTieIsCheapest(x, N, M, i, j, p);
      }
    } else {
      var i, j :| 0 < i <= N && 0 < j <= M && MissedTie(x, N, M, i, j);
      TieIsNotCheapest(x, N, M, i, j);
    }
  }

  lemma TieIsNotCheapest(x: seq<seq<real>>, N: nat, M: nat, i: nat, j: nat)
    requires Rect(x, N, M) && 0 < i <= N && 0 < j <= M && MissedTie(x, N, M, i, j)
    ensures !Cheapest(x, N, M, i, j)
  {
    hide Traced, Table, Inside, PathCost, Path;
    TieLosesEntry(x, N, M, i, j);
    var q := Traced(x, N, M, i - 1, j - 1);
    var p := q + [Match(i - 1, j - 1)];
    TracedIsPath(x, N, M, i - 1, j - 1);
    PathExtend(q, i - 2, j - 2, i - 1, j - 1);
    CostExtend(x, N, M, q, Match(i - 1, j - 1));
    assert !NotCheaper(x, N, M, i, j, p);
  }

  lemma TieLosesEntry(x: seq<seq<real>>, N: nat, M: nat, i: nat, j: nat)
    requires Rect(x, N, M) && 0 < i <= N && 0 < j <= M && MissedTie(x, N, M, i, j)
    ensures i > 1 && j > 1
    ensures Less(Plus(Table(x, N, M, i - 1, j - 1), x[i - 1][j - 1]), Table(x, N, M, i, j))
  {
  }

  // ---- one entry alone ----

  /** A cheapest path to cell `(i, j)`. */
  ghost predicate Least(x: seq<seq<real>>, N: nat, M: nat, i: nat, j: nat, p: seq<Match>)
    requires Rect(x, N, M) && 0 < i <= N && 0 < j <= M
  {
    && Path(p, i - 1, j - 1) && Inside(x, N, M, p)
    && forall q :: Path(q, i - 1, j - 1) && Inside(x, N, M, q) ==> PathCost(x, N, M, p) <= PathCost(x, N, M, q)
  }

  /** What the way back comes through is cheapest as well. */
  lemma CheapestBefore(x: seq<seq<real>>, N: nat, M: nat, i: nat, j: nat, i': nat, j': nat)
    requires Rect(x, N, M) && 0 < i <= N && 0 < j <= M && 0 < i' <= i && 0 < j' <= j && Cheapest(x, N, M, i, j)
    requires Step(Match(i' - 1, j' - 1), Match(i - 1, j - 1))
    requires Table(x, N, M, i', j').Fin? && Table(x, N, M, i, j) == Plus(Table(x, N, M, i', j'), x[i - 1][j - 1])
    ensures Cheapest(x, N, M, i', j')
  {
    hide Table, Inside, PathCost, Path;
    forall q | Path(q, i' - 1, j' - 1) && Inside(x, N, M, q) ensures NotCheaper(x, N, M, i', j', q) {
      PathExtend(q, i' - 1, j' - 1, i - 1, j - 1);
      CostExtend(x, N, M, q, Match(i - 1, j - 1));
      assert NotCheaper(x, N, M, i, j, q + [Match(i - 1, j - 1)]);
    }
  }

  lemma {:induction false} CheapestTrace(x: seq<seq<real>>, N: nat, M: nat, i: nat, j: nat)
    requires Rect(x, N, M) && 0 < i <= N && 0 < j <= M && Cheapest(x, N, M, i, j)
    ensures TieFree(x, N, M, Traced(x, N, M, i, j))
    decreases i + j
  {
    hide Traced, Table, Move, Cheapest, MissedTie;
    MoveStaysInside(x, N, M, i, j);
    var i', j' := TracedStep(x, N, M, i, j);
    if MissedTie(x, N, M, i, j) { TieIsNotCheapest(x, N, M, i, j); }
    if i' > 0 {
      CheapestBefore(x, N, M, i, j, i', j');
      CheapestTrace(x, N, M, i', j');
    }
  }

  /** One entry by itself, the returned one for instance, is the least cost of a path to its cell if
      and only if some cheapest path meets no tie. */
  lemma EntryCheapestIff(x: seq<seq<real>>, N: nat, M: nat, i: nat, j: nat)
    requires Rect(x, N, M) && 0 < i <= N && 0 < j <= M
    ensures Cheapest(x, N, M, i, j) <==> exists p :: Least(x, N, M, i, j, p) && TieFree(x, N, M, p)
  {
    hide Traced, Table, TieFree, PathCost, Inside, Path;
    if Cheapest(x, N, M, i, j) {
      var p := Traced(x, N, M, i, j);
      TracedIsPath(x, N, M, i, j);
      CheapestTrace(x, N, M, i, j);
      forall q | Path(q, i - 1, j - 1) && Inside(x, N, M, q) ensures PathCost(x, N, M, p) <= PathCost(x, N, M, q) {
        assert NotCheaper(x, N, M, i, j, q);
      }
      assert Least(x, N, M, i, j, p);
    }
    if p :| Least(x, N, M, i, j, p) && TieFree(x, N, M, p) {
      TieFreeBounds(x, N, M, i, j, p);
      forall q | Path(q, i - 1, j - 1) && Inside(x, N, M, q) ensures NotCheaper(x, N, M, i, j, q) {
        assert PathCost(x, N, M, p) <= PathCost(x, N, M, q);
      }
    }
  }

  /** The failing case is real: the path returned here costs 1, the diagonal nothing. */
  lemma TieCosts()
    ensures var x := [[0.0, 0.0], [1.0, 0.0]];
            Rect(x, 2, 2) && Table(x, 2, 2, 2, 2) == Fin(1.0)
            && Path([Match(0, 0), Match(1, 1)], 1, 1)
            && Inside(x, 2, 2, [Match(0, 0), Match(1, 1)]) && PathCost(x, 2, 2, [Match(0, 0), Match(1, 1)]) == 0.0
  {
    var x := [[0.0, 0.0], [1.0, 0.0]];
    var p := [Match(0, 0), Match(1, 1)];
    assert p[..1] == [p[0]] && p[..1][..0] == [];
    assert Table(x, 2, 2, 1, 1) == Fin(0.0);
    assert Table(x, 2, 2, 1, 2) == Fin(0.0);
    assert Table(x, 2, 2, 2, 1) == Fin(1.0);
  }

  // ---- the code: cost and trace tables, then the way back ----

  /** What cell `(i, j)` of the two tables has to hold. */
  ghost predicate Done(x: seq<seq<real>>, N: nat, M: nat, i: nat, j: nat, c: Cost, t: int)
    requires Rect(x, N, M) && i <= N && j <= M
  {
    c == Table(x, N, M, i, j) && (i > 0 && j > 0 ==> t == Move(x, N, M, i, j))
  }

  method FillTables(x: seq<seq<real>>, N: nat, M: nat, cost: array2<Cost>, trace: array2<int>)
    requires Rect(x, N, M) && cost.Length0 == trace.Length0 == N + 1 && cost.Length1 == trace.Length1 == M + 1
    modifies cost, trace
    ensures forall i, j :: 0 <= i <= N && 0 <= j <= M ==> Done(x, N, M, i, j, cost[i, j], trace[i, j])
  {
    forall i, j | 0 <= i <= N && 0 <= j <= M { cost[i, j] := Inf; }
    forall i, j | 0 <= i <= N && 0 <= j <= M { trace[i, j] := -1; }
    cost[0, 0] := Fin(0.0);
    var j := 1;
    while j < M + 1
      invariant 1 <= j <= M + 1
      invariant forall a, b :: 0 <= a <= N && 0 <= b <= M && (b < j || a == 0) ==> Done(x, N, M, a, b, cost[a, b], trace[a, b])
    {
      var i := 1;
      while i < N + 1
        invariant 1 <= i <= N + 1
        invariant forall a, b :: 0 <= a <= N && 0 <= b <= M && (b < j || a == 0 || (b == j && a < i)) ==>
                    Done(x, N, M, a, b, cost[a, b], trace[a, b])
      {
        FillCell(x, N, M, cost, trace, i, j);
        i := i + 1;
      }
      j := j + 1;
    }
  }

  method FillCell(x: seq<seq<real>>, N: nat, M: nat, cost: array2<Cost>, trace: array2<int>, i: nat, j: nat)
    requires Rect(x, N, M) && cost.Length0 == trace.Length0 == N + 1 && cost.Length1 == trace.Length1 == M + 1
    requires 0 < i <= N && 0 < j <= M
    requires Done(x, N, M, i - 1, j - 1, cost[i - 1, j - 1], trace[i - 1, j - 1]) && Done(x, N, M, i - 1, j, cost[i - 1, j], trace[i - 1, j])
    requires Done(x, N, M, i, j - 1, cost[i, j - 1], trace[i, j - 1])
    modifies cost, trace
    ensures Done(x, N, M, i, j, cost[i, j], trace[i, j])
    ensures forall a, b :: 0 <= a <= N && 0 <= b <= M && !(a == i && b == j) ==>
              cost[a, b] == old(cost[a, b]) && trace[a, b] == old(trace[a, b])
  {
    var c0, c1, c2 := cost[i - 1, j - 1], cost[i - 1, j], cost[i, j - 1];
    var c: Cost;
    var t: int;
    if Less(c0, c1) && Less(c0, c2) {
      c, t := c0, 0;
    } else if Less(c1, c0) && Less(c1, c2) {
      c, t := c1, 1;
    } else {
      c, t := c2, 2;
    }
    c := Plus(c, x[i - 1][j - 1]);
    cost[i, j] := c;
    trace[i, j] := t;
  }

  /** The rows of `bt` from `from` on. */
  ghost predicate Holds(bt: array2<int>, from: nat, p: seq<Match>)
    reads bt
    requires bt.Length1 == 2
  {
    from + |p| == bt.Length0 && forall k :: from <= k < bt.Length0 ==> RowIs(bt[k, 0], bt[k, 1], p, k - from)
  }

  ghost predicate RowIs(token: int, frame: int, p: seq<Match>, k: nat) {
    k < |p| && token == p[k].token && frame == p[k].frame
  }

  method WriteRow(bt: array2<int>, row: nat, i: nat, j: nat, ghost tail: seq<Match>)
    requires bt.Length1 == 2 && row < bt.Length0 && i > 0 && j > 0 && Holds(bt, row + 1, tail)
    modifies bt
    ensures Holds(bt, row, [Match(i - 1, j - 1)] + tail)
  {
    bt[row, 0] := i - 1;
    bt[row, 1] := j - 1;
    ghost var p := [Match(i - 1, j - 1)] + tail;
    forall k | row <= k < bt.Length0 ensures RowIs(bt[k, 0], bt[k, 1], p, k - row) {
      if k > row { assert RowIs(bt[k, 0], bt[k, 1], tail, k - (row + 1)); }
    }
  }

  lemma NoRows(bt: array2<int>)
    requires bt.Length1 == 2
    ensures Holds(bt, bt.Length0, [])
  {
  }

  /** The way back, written from the last row upwards.  It ends, meets the border only in the
      corner, and fits into `N + M - 1` rows. */
  method Backtrace(x: seq<seq<real>>, N: nat, M: nat, trace: array2<int>, bt: array2<int>) returns (first: nat)
    requires Rect(x, N, M) && N > 0 && M > 0
    requires trace.Length0 == N + 1 && trace.Length1 == M + 1 && bt.Length0 == N + M - 1 && bt.Length1 == 2 && bt != trace
    requires forall i, j :: 0 < i <= N && 0 < j <= M ==> trace[i, j] == Move(x, N, M, i, j)
    modifies trace, bt
    ensures Holds(bt, first, Traced(x, N, M, N, M))
  {
    hide Move, Table, Traced, Holds;
    forall i | 0 <= i <= M { trace[0, i] := 2; }
    forall i | 0 <= i <= N { trace[i, 0] := 1; }
    var btRowIdx := N + M - 2;
    var i: nat, j: nat := N, M;
    ghost var tail: seq<Match> := [];
    assert Holds(bt, btRowIdx + 1, tail) by { NoRows(bt); }
    while i > 0 || j > 0
      invariant i <= N && j <= M && (i == 0 <==> j == 0)
      invariant |tail| <= (N - i) + (M - j) && btRowIdx == N + M - 2 - |tail|
      invariant i > 0 ==> btRowIdx >= 0
      invariant btRowIdx >= -1
      invariant Holds(bt, btRowIdx + 1, tail)
      invariant Traced(x, N, M, N, M) == Traced(x, N, M, i, j) + tail
      invariant forall i, j :: 0 < i <= N && 0 < j <= M ==> trace[i, j] == Move(x, N, M, i, j)
      decreases i + j
    {
      ghost var i', j' := TracedStep(x, N, M, i, j);
      assert Traced(x, N, M, i', j') + [Match(i - 1, j - 1)] + tail
          == Traced(x, N, M, i', j') + ([Match(i - 1, j - 1)] + tail);
      WriteRow(bt, btRowIdx, i, j, tail);
      tail := [Match(i - 1, j - 1)] + tail;
      btRowIdx := btRowIdx - 1;
      var t := trace[i, j];
      if t == 0 {
        i := i - 1;
        j := j - 1;
      } else if t == 1 {
        i := i - 1;
      } else if t == 2 {
        j := j - 1;
      } else {
        assert false;
      }
    }
    TracedCorner(x, N, M);
    assert [] + tail == tail;
    first := btRowIdx + 1;
  }

  /** The two rows of the result, as matches. */
  ghost predicate Lists(r: array2<int>, p: seq<Match>)
    reads r
  {
    r.Length0 == 2 && r.Length1 == |p| && forall k :: 0 <= k < |p| ==> r[0, k] == p[k].token && r[1, k] == p[k].frame
  }

  /** The alignment: the matches of the path the table encodes, in order. */
  method DtwAndBacktrace(x: seq<seq<real>>, N: nat, M: nat) returns (r: array2<int>)
    requires Rect(x, N, M) && N > 0 && M > 0
    ensures fresh(r) && Lists(r, Traced(x, N, M, N, M))
  {
    var cost := new Cost[N + 1, M + 1];
    var trace := new int[N + 1, M + 1];
    FillTables(x, N, M, cost, trace);
    assert forall i, j :: 0 < i <= N && 0 < j <= M ==> Done(x, N, M, i, j, cost[i, j], trace[i, j]);
    var bt := new int[N + M - 1, 2];
    var first := Backtrace(x, N, M, trace, bt);
    r := ListRows(bt, first, Traced(x, N, M, N, M));
  }

  /** The rows from `first` on, one column for each match. */
  method ListRows(bt: array2<int>, first: nat, ghost p: seq<Match>) returns (r: array2<int>)
    requires bt.Length1 == 2 && Holds(bt, first, p)
    ensures fresh(r) && Lists(r, p)
  {
    var cols := bt.Length0 - first;
    r := new int[2, cols];
    for i := 0 to 2
      invariant Holds(bt, first, p)
      invariant i > 0 ==> forall k :: 0 <= k < cols ==> r[0, k] == p[k].token
      invariant i > 1 ==> forall k :: 0 <= k < cols ==> r[1, k] == p[k].frame
    {
      for j := 0 to cols
        invariant Holds(bt, first, p)
        invariant forall k :: 0 <= k < cols && (i == 1 || k < j) ==> r[0, k] == p[k].token
        invariant i == 1 ==> forall k :: 0 <= k < j ==> r[1, k] == p[k].frame
      {
        assert RowIs(bt[first + j, 0], bt[first + j, 1], p, first + j - first);
        var v := bt[j + first, i];
        r[i, j] := v;
      }
    }
  }

  // ---- token times ----

  /** A token of the result; below `eot` it is text. */
  datatype Token = Token(id: int, tDtw: int)

  /** A time, in centiseconds, each time the path comes to another token: a frame is 20 ms. */
  function Stamps(p: seq<Match>, last: nat, seek: int): seq<int> {
    if p == [] then []
    else if p[0].token != last then [p[0].frame * 2 + seek] + Stamps(p[1..], p[0].token, seek)
    else Stamps(p[1..], last, seek)
  }

  ghost predicate Ordered(s: seq<int>, least: int) {
    && (forall n :: 0 <= n < |s| ==> least <= s[n])
    && (forall m, n :: 0 <= m < n < |s| ==> s[m] <= s[n])
  }

  ghost predicate Steps(p: seq<Match>) {
    forall k :: 0 < k < |p| ==> Step(p[k - 1], p[k])
  }

  lemma StepsTail(p: seq<Match>)
    requires Steps(p) && |p| > 1
    ensures Steps(p[1..]) && Step(p[0], p[1])
  {
    assert Step(p[1 - 1], p[1]);
    forall k | 0 < k < |p[1..]| ensures Step(p[1..][k - 1], p[1..][k]) {
      assert Step(p[k + 1 - 1], p[k + 1]);
    }
  }

  /** One time per token after the first, in order: tokens are never skipped. */
  lemma {:induction false} StampsOrdered(p: seq<Match>, last: nat, seek: int)
    requires p != [] && Steps(p) && last <= p[0].token <= last + 1
    ensures |Stamps(p, last, seek)| == p[|p| - 1].token - last
    ensures Ordered(Stamps(p, last, seek), p[0].frame * 2 + seek)
    decreases |p|
  {
    hide Ordered, Steps;
    var rest := Stamps(p[1..], p[0].token, seek);
    if |p| == 1 {
      assert rest == [];
    } else {
      StepsTail(p);
      StampsOrdered(p[1..], p[0].token, seek);
    }
    OrderedCons(rest, p[0].frame * 2 + seek, if |p| > 1 then p[1].frame * 2 + seek else 0);
  }

  lemma OrderedCons(s: seq<int>, a: int, b: int)
    requires s == [] || (Ordered(s, b) && a <= b)
    ensures Ordered(s, a) && Ordered([a] + s, a)
  {
  }

  /** Token `n + 1` gets the time of the first frame the path matches it to. */
  lemma {:induction false} StampIsFirstFrame(p: seq<Match>, last: nat, seek: int, k: nat)
    requires p != [] && Steps(p) && last <= p[0].token <= last + 1 && k < |p|
    requires p[k].token > last && (k > 0 ==> p[k - 1].token < p[k].token) && (k == 0 ==> p[0].token == last + 1)
    ensures p[k].token - last - 1 < |Stamps(p, last, seek)|
    ensures Stamps(p, last, seek)[p[k].token - last - 1] == p[k].frame * 2 + seek
    decreases |p|
  {
    StampsOrdered(p, last, seek);
    if k > 0 {
      StepsTail(p);
      StepsUp(p, k - 1);
      StampsOrdered(p[1..], p[0].token, seek);
      StampIsFirstFrame(p[1..], p[0].token, seek, k - 1);
    } else {
      TokensUp(p, 0, |p| - 1);
    }
  }

  lemma {:induction false} TokensUp(p: seq<Match>, k: nat, n: nat)
    requires Steps(p) && k <= n < |p|
    ensures p[k].token <= p[n].token
    decreases n
  {
    if k < n {
      TokensUp(p, k, n - 1);
      assert Step(p[n - 1], p[n]);
    }
  }

  lemma StepsUp(p: seq<Match>, k: nat)
    requires Steps(p) && k < |p|
    ensures p[0].token <= p[k].token
  {
    TokensUp(p, 0, k);
  }

  /** The times of the text tokens, in order. */
  function TextTimes(ts: seq<Token>, eot: int): seq<int> {
    if ts == [] then []
    else TextTimes(ts[..|ts| - 1], eot) + if ts[|ts| - 1].id < eot then [ts[|ts| - 1].tDtw] else []
  }

  lemma {:induction false} TextTimesConcat(a: seq<Token>, b: seq<Token>, eot: int)
    ensures TextTimes(a + b, eot) == TextTimes(a, eot) + TextTimes(b, eot)
    decreases |b|
  {
    if b == [] {
      assert a + b == a;
    } else {
      assert (a + b)[..|a + b| - 1] == a + b[..|b| - 1];
      TextTimesConcat(a, b[..|b| - 1], eot);
    }
  }

  lemma TextTimesNext(ts: seq<Token>, n: nat, eot: int)
    requires n < |ts|
    ensures TextTimes(ts[..n + 1], eot) == TextTimes(ts[..n], eot) + if ts[n].id < eot then [ts[n].tDtw] else []
  {
    assert ts[..n + 1][..n] == ts[..n];
  }

  lemma TextTimesFirst(ts: seq<Token>, n: nat, eot: int)
    requires n < |ts|
    ensures TextTimes(ts[n..], eot) == (if ts[n].id < eot then [ts[n].tDtw] else []) + TextTimes(ts[n + 1..], eot)
  {
    assert ts[n..] == [ts[n]] + ts[n + 1..];
    TextTimesConcat([ts[n]], ts[n + 1..], eot);
    assert [ts[n]][..0] == [];
  }

  lemma NoTextLeft(ts: seq<Token>, n: nat, eot: int)
    requires n == |ts|
    ensures TextTimes(ts[n..], eot) == []
  {
  }

  /** Only the times of text tokens differ. */
  ghost predicate OnlyTimes(was: seq<Token>, now: seq<Token>, eot: int) {
    && |now| == |was|
    && forall k :: 0 <= k < |was| ==> now[k].id == was[k].id && (was[k].id >= eot ==> now[k] == was[k])
  }

  /** The next text token; there is one as long as a time is left to place. */
  method SkipToText(tokens: array<Token>, tok: nat, eot: int) returns (next: nat)
    requires tok <= tokens.Length && TextTimes(tokens[tok..], eot) != []
    ensures tok <= next < tokens.Length && tokens[next].id < eot
    ensures TextTimes(tokens[..next], eot) == TextTimes(tokens[..tok], eot)
    ensures TextTimes(tokens[next..], eot) == TextTimes(tokens[tok..], eot)
  {
    next := tok;
    NoTextLeft(tokens[..], tokens.Length, eot);
    while !(tokens[next].id < eot)
      invariant tok <= next < tokens.Length
      invariant TextTimes(tokens[..next], eot) == TextTimes(tokens[..tok], eot)
      invariant TextTimes(tokens[next..], eot) == TextTimes(tokens[tok..], eot)
      decreases tokens.Length - next
    {
      TextTimesNext(tokens[..], next, eot);
      TextTimesFirst(tokens[..], next, eot);
      assert tokens[..][..next] == tokens[..next] && tokens[..][..next + 1] == tokens[..next + 1];
      assert tokens[..][next..] == tokens[next..] && tokens[..][next + 1..] == tokens[next + 1..];
      next := next + 1;
    }
  }

  /** Put the time at the next text token and move behind it. */
  method PlaceNext(tokens: array<Token>, tok: nat, eot: int, stamp: int) returns (next: nat)
    requires tok <= tokens.Length && TextTimes(tokens[tok..], eot) != []
    modifies tokens
    ensures tok < next <= tokens.Length
    ensures TextTimes(tokens[..next], eot) == old(TextTimes(tokens[..tok], eot)) + [stamp]
    ensures |TextTimes(tokens[next..], eot)| == old(|TextTimes(tokens[tok..], eot)|) - 1
    ensures OnlyTimes(old(tokens[..]), tokens[..], eot)
  {
    next := SkipToText(tokens, tok, eot);
    ghost var was := tokens[..];
    TextTimesFirst(was, next, eot);
    tokens[next] := tokens[next].(tDtw := stamp);
    TextTimesNext(tokens[..], next, eot);
    assert tokens[..][..next] == was[..next] && tokens[..][next + 1..] == was[next + 1..];
    assert tokens[..][..next + 1] == tokens[..next + 1];
    assert was[next..] == old(tokens[..])[next..];
    next := next + 1;
  }

  lemma StampsEnd(p: seq<Match>, seek: int)
    ensures forall last: nat :: Stamps(p[|p|..], last, seek) == []
  {
  }

  lemma StampsFirst(p: seq<Match>, i: nat, last: nat, seek: int)
    requires i < |p|
    ensures Stamps(p[i..], last, seek) ==
            if p[i].token != last then [p[i].frame * 2 + seek] + Stamps(p[i + 1..], p[i].token, seek)
            else Stamps(p[i + 1..], last, seek)
  {
    assert p[i..][1..] == p[i + 1..];
  }

  lemma MoveOver(a: seq<int>, x: int, b: seq<int>)
    ensures a + ([x] + b) == a + [x] + b
  {
  }

  lemma OnlyTimesSame(ts: seq<Token>, eot: int)
    ensures OnlyTimes(ts, ts, eot)
  {
  }

  lemma OnlyTimesTwice(a: seq<Token>, b: seq<Token>, c: seq<Token>, eot: int)
    requires OnlyTimes(a, b, eot) && OnlyTimes(b, c, eot)
    ensures OnlyTimes(a, c, eot)
  {
  }

  /** The walk over the alignment gives each text token its time: there are exactly as many, and
      they never decrease. */
  method PlaceTimestamps(r: array2<int>, tokens: array<Token>, eot: int, seek: int, ghost p: seq<Match>)
    requires Lists(r, p) && p != [] && Steps(p) && p[0].token == 0
    requires |TextTimes(tokens[..], eot)| == p[|p| - 1].token
    modifies tokens
    ensures TextTimes(tokens[..], eot) == Stamps(p, 0, seek)
    ensures Ordered(TextTimes(tokens[..], eot), p[0].frame * 2 + seek)
    ensures OnlyTimes(old(tokens[..]), tokens[..], eot)
  {
    hide TextTimes, Stamps, Steps, Ordered, OnlyTimes;
    OnlyTimesSame(tokens[..], eot);
    StampsOrdered(p, 0, seek);
    var lastV, tok := 0, 0;
    assert p[0..] == p && tokens[0..] == tokens[..] && tokens[..0] == [];
    NoTextLeft([], 0, eot);
    StampsEnd(p, seek);
    for i := 0 to r.Length1
      invariant Lists(r, p) && tok <= tokens.Length && lastV >= 0
      invariant TextTimes(tokens[..tok], eot) + Stamps(p[i..], lastV, seek) == Stamps(p, 0, seek)
      invariant |TextTimes(tokens[tok..], eot)| == |Stamps(p[i..], lastV, seek)|
      invariant OnlyTimes(old(tokens[..]), tokens[..], eot)
    {
      StampsFirst(p, i, lastV, seek);
      var v := r[0, i];
      if v != lastV {
        var timeIndex := r[1, i];
        var timestamp := timeIndex * 2 + seek;
        lastV := v;
        ghost var done, before := TextTimes(tokens[..tok], eot), tokens[..];
        tok := PlaceNext(tokens, tok, eot, timestamp);
        MoveOver(done, timestamp, Stamps(p[i + 1..], v, seek));
        OnlyTimesTwice(old(tokens[..]), before, tokens[..], eot);
      }
    }
    assert tokens[..][..tok] == tokens[..tok] && tokens[..][tok..] == tokens[tok..];
    AllStamped(tokens[..], tok, eot, p, lastV, seek);
  }

  lemma AllStamped(ts: seq<Token>, n: nat, eot: int, p: seq<Match>, last: nat, seek: int)
    requires n <= |ts| && |TextTimes(ts[n..], eot)| == |Stamps(p[|p|..], last, seek)|
    requires TextTimes(ts[..n], eot) + Stamps(p[|p|..], last, seek) == Stamps(p, 0, seek)
    ensures TextTimes(ts, eot) == Stamps(p, 0, seek)
  {
    assert p[|p|..] == [];
    assert Stamps(p[|p|..], last, seek) == [];
    RestHasNoText(ts, n, eot);
  }

  lemma RestHasNoText(ts: seq<Token>, n: nat, eot: int)
    requires n <= |ts| && TextTimes(ts[n..], eot) == []
    ensures TextTimes(ts, eot) == TextTimes(ts[..n], eot)
  {
    assert ts == ts[..n] + ts[n..];
    TextTimesConcat(ts[..n], ts[n..], eot);
  }
}
