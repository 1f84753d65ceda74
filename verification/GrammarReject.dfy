/** Rejecting many candidate tokens at once, and the theorem that the batched rejector agrees
    with feeding each candidate to the grammar on its own. */
module GrammarReject {
  import opened Utf8
  import opened Grammar
  import opened GrammarLang
  import opened GrammarStep

  /** `points` ends with the terminating zero; `at` is how far it has been read. */
  datatype Candidate = Candidate(id: int, points: seq<nat>, at: nat, partial: Partial) {
    predicate Ok() {
      at < |points| && forall k :: 0 <= k < |points| ==> (points[k] == 0 <==> k == |points| - 1)
    }

    predicate AtEnd()
      requires at < |points|
    {
      points[at] == 0
    }

    /** The code points still to be read. */
    function Rest(): seq<nat>
      requires at < |points|
    {
      points[at..|points| - 1]
    }

    function Fwd(): Candidate { this.(at := at + 1) }
  }

  // ---- a character of which only the first bytes are known ----

  function Pow64(n: nat): (r: nat)
    ensures r > 0
  {
    if n == 0 then 1 else 64 * Pow64(n - 1)
  }

  function Low(q: Partial): nat
    requires 0 <= q.remain
  {
    var low := q.value * Pow64(q.remain);
    if low == 0 && q.remain == 2 then 0x800 else if low == 0 && q.remain == 3 then 0x10000 else low
  }

  function High(q: Partial): nat
    requires 0 <= q.remain
  {
    q.value * Pow64(q.remain) + (Pow64(q.remain) - 1)
  }

  /** Some range of the class at `p` meets `[low, high]`. */
  predicate ClassMeets(g: Rules, p: Pos, low: nat, high: nat)
    requires WellFormed(g) && Valid(g, p) && At(g, p).kind in {CHAR, CHAR_NOT, CHAR_ALT}
    decreases |g[p.rule]| - p.idx
  {
    var q := RangeEnd(g, p);
    RangeMeets(g, p, low, high) || (At(g, q).kind == CHAR_ALT && ClassMeets(g, q, low, high))
  }

  predicate RangeMeets(g: Rules, p: Pos, low: nat, high: nat)
    requires WellFormed(g) && Valid(g, p) && At(g, p).kind != END
  {
    assert ElementOk(g, p.rule, p.idx);
    if At(g, p.Next()).kind == CHAR_RNG_UPPER then At(g, p).value <= high && low <= At(g, p.Next()).value
    else low <= At(g, p).value <= high
  }

  /** `whisper_grammar_match_partial_char` */
  predicate MatchPartial(g: Rules, p: Pos, q: Partial)
    requires WellFormed(g) && Valid(g, p) && IsChar(g, p)
  {
    q.remain >= 0 && !(q.remain == 1 && q.value < 2)
    && ClassMeets(g, p, Low(q), High(q)) == (At(g, p).kind == CHAR)
  }

  /** `c` is a code point the partial character may turn out to be. */
  predicate Completes(q: Partial, c: nat)
    requires 0 <= q.remain
  {
    Low(q) <= c <= High(q)
  }

  /** Every range of every class has its ends in order. */
  ghost predicate RangesOrdered(g: Rules) {
    forall r, i :: 0 <= r < |g| && 0 < i < |g[r]| && g[r][i].kind == CHAR_RNG_UPPER ==> g[r][i - 1].value <= g[r][i].value
  }

  /** `c` lies in the class at `p`, negation aside. */
  predicate InClass(g: Rules, p: Pos, c: nat)
    requires WellFormed(g) && Valid(g, p) && At(g, p).kind in {CHAR, CHAR_NOT, CHAR_ALT}
  {
    ScanClass(g, p, c).0
  }

  predicate Matches(g: Rules, p: Pos, c: nat)
    requires WellFormed(g) && Valid(g, p) && IsChar(g, p)
  {
    MatchChar(g, p, c).0
  }

  ghost predicate SomeIn(g: Rules, p: Pos, low: nat, high: nat)
    requires WellFormed(g) && Valid(g, p) && At(g, p).kind in {CHAR, CHAR_NOT, CHAR_ALT}
  {
    exists c: nat :: low <= c <= high && InClass(g, p, c)
  }

  lemma {:induction false} ClassMeetsIff(g: Rules, p: Pos, low: nat, high: nat)
    requires WellFormed(g) && RangesOrdered(g) && low <= high
    requires Valid(g, p) && At(g, p).kind in {CHAR, CHAR_NOT, CHAR_ALT}
    ensures ClassMeets(g, p, low, high) <==> SomeIn(g, p, low, high)
    decreases |g[p.rule]| - p.idx
  {
    var q := RangeEnd(g, p);
    var more := At(g, q).kind == CHAR_ALT;
    forall c: nat ensures InClass(g, p, c) <==> InRange(g, p, c) || (more && InClass(g, q, c)) {
    }
    RangeMeetsIff(g, p, low, high);
    if more { ClassMeetsIff(g, q, low, high); }
    if ClassMeets(g, p, low, high) {
      var c: nat :| low <= c <= high && (InRange(g, p, c) || (more && InClass(g, q, c)));
      assert InClass(g, p, c);
    }
    if SomeIn(g, p, low, high) {
      var c: nat :| low <= c <= high && InClass(g, p, c);
      assert InRange(g, p, c) || (more && InClass(g, q, c));
    }
  }

  lemma RangeMeetsIff(g: Rules, p: Pos, low: nat, high: nat)
    requires WellFormed(g) && RangesOrdered(g) && low <= high && Valid(g, p) && At(g, p).kind != END
    ensures RangeMeets(g, p, low, high) <==> exists c: nat :: low <= c <= high && InRange(g, p, c)
  {
    assert ElementOk(g, p.rule, p.idx);
    var x := At(g, p).value;
    var c := if x >= low then x else low;
    if RangeMeets(g, p, low, high) {
      assert InRange(g, p, c);
    }
  }

  /** The exact meaning of the partial match: for a class, some completion is in it; for a
      negated class, every completion is.  So for negated classes it is conservative. */
  lemma PartialMatchMeans(g: Rules, p: Pos, q: Partial)
    requires WellFormed(g) && RangesOrdered(g) && Valid(g, p) && IsChar(g, p)
    requires 0 <= q.remain <= 3 && !(q.remain == 1 && q.value < 2)
    ensures Low(q) <= High(q)
    ensures At(g, p).kind == CHAR ==>
              (MatchPartial(g, p, q) <==> exists c: nat :: Completes(q, c) && Matches(g, p, c))
    ensures At(g, p).kind == CHAR_NOT ==>
              (MatchPartial(g, p, q) <==> forall c: nat :: Completes(q, c) ==> Matches(g, p, c))
  {
    assert Pow64(1) == 64 && Pow64(2) == 4096 && Pow64(3) == 262144;
    ClassMeetsIff(g, p, Low(q), High(q));
    var positive := At(g, p).kind == CHAR;
    forall c: nat ensures Matches(g, p, c) <==> InClass(g, p, c) == positive {
    }
    if SomeIn(g, p, Low(q), High(q)) {
      var c: nat :| Low(q) <= c <= High(q) && InClass(g, p, c);
      assert Completes(q, c) && Matches(g, p, c) == positive;
    } else {
      forall c: nat | Completes(q, c) ensures !InClass(g, p, c) {
      }
    }
  }

  // ---- the batched rejector ----

  ghost predicate CandidatesOk(cands: seq<Candidate>, m: nat) {
    forall k :: 0 <= k < |cands| ==> cands[k].Ok() && |cands[k].points| - cands[k].at <= m
  }

  /** Rejected without looking further: out of place at the class `p`. */
  predicate RejectedHere(g: Rules, p: Pos, c: Candidate)
    requires WellFormed(g) && Valid(g, p) && IsChar(g, p) && c.Ok()
  {
    if c.AtEnd() then c.partial.remain != 0 && !MatchPartial(g, p, c.partial)
    else !MatchChar(g, p, c.points[c.at]).0
  }

  function LocalRejects(g: Rules, p: Pos, cands: seq<Candidate>): (r: seq<Candidate>)
    requires WellFormed(g) && Valid(g, p) && IsChar(g, p) && forall k :: 0 <= k < |cands| ==> cands[k].Ok()
    ensures forall x :: x in r ==> x in cands
  {
    if cands == [] then []
    else (if RejectedHere(g, p, cands[0]) then [cands[0]] else []) + LocalRejects(g, p, cands[1..])
  }

  /** Candidates whose next code point matches, stepped over it. */
  function Passed(g: Rules, p: Pos, cands: seq<Candidate>): (r: seq<Candidate>)
    requires WellFormed(g) && Valid(g, p) && IsChar(g, p) && forall k :: 0 <= k < |cands| ==> cands[k].Ok()
    ensures forall x :: x in r ==> x.at > 0 && x.(at := x.at - 1) in cands && x.Ok()
  {
    if cands == [] then []
    else
      var c := cands[0];
      assert c.Ok();
      (if !c.AtEnd() && !RejectedHere(g, p, c) then [c.Fwd()] else []) + Passed(g, p, cands[1..])
  }

  function Back(cands: seq<Candidate>): (r: seq<Candidate>)
    requires forall x :: x in cands ==> x.at > 0
    ensures |r| == |cands| && forall k :: 0 <= k < |r| ==> r[k] == cands[k].(at := cands[k].at - 1)
  {
    if cands == [] then [] else [cands[0].(at := cands[0].at - 1)] + Back(cands[1..])
  }

  function EmptyRejects(cands: seq<Candidate>): (r: seq<Candidate>)
    requires forall k :: 0 <= k < |cands| ==> cands[k].Ok()
    ensures forall x :: x in r ==> x in cands
  {
    if cands == [] then []
    else
      assert cands[0].Ok();
      (if !cands[0].AtEnd() || cands[0].partial.remain != 0 then [cands[0]] else []) + EmptyRejects(cands[1..])
  }

  lemma SubOk(x: seq<Candidate>, cands: seq<Candidate>, m: nat)
    requires CandidatesOk(cands, m) && forall c :: c in x ==> c in cands
    ensures CandidatesOk(x, m)
  {
    forall k | 0 <= k < |x| ensures x[k].Ok() && |x[k].points| - x[k].at <= m {
      assert x[k] in cands;
    }
  }

  lemma PassedOk(g: Rules, p: Pos, cands: seq<Candidate>, m: nat)
    requires WellFormed(g) && Valid(g, p) && IsChar(g, p) && CandidatesOk(cands, m) && m > 0
    ensures CandidatesOk(Passed(g, p, cands), m - 1)
  {
    var r := Passed(g, p, cands);
    forall k | 0 <= k < |r| ensures r[k].Ok() && |r[k].points| - r[k].at <= m - 1 {
      assert r[k] in r;
      assert r[k].(at := r[k].at - 1) in cands;
    }
  }

  /** `whisper_grammar_reject_candidates_for_stack` */
  function RejectForStack(g: Rules, ghost ev: Evidence, s: Stack, cands: seq<Candidate>, ghost m: nat): (r: seq<Candidate>)
    requires WellFormed(g) && Ranked(g, ev) && TerminalStack(g, s) && CandidatesOk(cands, m)
    ensures forall x :: x in r ==> x in cands
    decreases m, 0, 1
  {
    if s == [] then EmptyRejects(cands)
    else if cands == [] then []
    else
      var p := s[|s| - 1];
      var after := Push(g, s[..|s| - 1], MatchChar(g, p, 0).1);
      assert cands[0].Ok() && m > 0;
      PassedOk(g, p, cands, m);
      var rejects := RejectCandidates(g, ev, Advance(g, ev, after), Passed(g, p, cands), m - 1);
      LocalRejects(g, p, cands) + Back(rejects)
  }

  /** `whisper_grammar_reject_candidates`: only what every stack rejects is rejected. */
  function RejectCandidates(g: Rules, ghost ev: Evidence, stacks: seq<Stack>, cands: seq<Candidate>, ghost m: nat): (r: seq<Candidate>)
    requires WellFormed(g) && Ranked(g, ev) && Terminal(g, stacks) && CandidatesOk(cands, m)
    ensures forall x :: x in r ==> x in cands
    decreases m, 1, |stacks| + 1
  {
    if cands == [] || stacks == [] then []
    else RejectInTurn(g, ev, stacks, cands, m)
  }

  function RejectInTurn(g: Rules, ghost ev: Evidence, stacks: seq<Stack>, cands: seq<Candidate>, ghost m: nat): (r: seq<Candidate>)
    requires WellFormed(g) && Ranked(g, ev) && Terminal(g, stacks) && CandidatesOk(cands, m)
    ensures forall x :: x in r ==> x in cands
    decreases m, 1, |stacks|
  {
    if stacks == [] then cands
    else
      assert TerminalStack(g, stacks[0]);
      var rejects := RejectForStack(g, ev, stacks[0], cands, m);
      SubOk(rejects, cands, m);
      RejectInTurn(g, ev, stacks[1..], rejects, m)
  }

  // ---- the simple form ----

  /** A stack that has read all of a candidate's code points still turns it down. */
  predicate TailRejected(g: Rules, s: Stack, q: Partial)
    requires WellFormed(g) && TerminalStack(g, s)
  {
    q.remain != 0 && (s == [] || !MatchPartial(g, s[|s| - 1], q))
  }

  ghost predicate TurnsDown(g: Rules, left: seq<Stack>, q: Partial)
    requires WellFormed(g)
  {
    forall i :: 0 <= i < |left| ==> TerminalStack(g, left[i]) && TailRejected(g, left[i], q)
  }

  /** Feeding the candidate's code points one by one leaves only stacks that turn it down. */
  ghost predicate RejectedAlone(g: Rules, ev: Evidence, stacks: seq<Stack>, c: Candidate)
    requires WellFormed(g) && Ranked(g, ev) && Terminal(g, stacks) && c.Ok()
  {
    TurnsDown(g, AcceptAll(g, ev, stacks, c.Rest()), c.partial)
  }

  lemma {:induction false} AcceptConcat(g: Rules, ev: Evidence, x: seq<Stack>, y: seq<Stack>, c: nat)
    requires WellFormed(g) && Ranked(g, ev) && Terminal(g, x) && Terminal(g, y)
    ensures Terminal(g, x + y) && Accept(g, ev, x + y, c) == Accept(g, ev, x, c) + Accept(g, ev, y, c)
    decreases |x|
  {
    hide WellFormed, Ranked, AcceptOne;
    if x == [] {
      assert x + y == y;
    } else {
      assert (x + y)[0] == x[0] && (x + y)[1..] == x[1..] + y;
      assert TerminalStack(g, x[0]);
      AcceptConcat(g, ev, x[1..], y, c);
      Associate(AcceptOne(g, ev, x[0], c), Accept(g, ev, x[1..], c), Accept(g, ev, y, c));
    }
  }

  lemma Associate(x: seq<Stack>, y: seq<Stack>, z: seq<Stack>)
    ensures x + (y + z) == (x + y) + z
  {
  }

  lemma {:induction false} AcceptAllConcat(g: Rules, ev: Evidence, x: seq<Stack>, y: seq<Stack>, u: seq<nat>)
    requires WellFormed(g) && Ranked(g, ev) && Terminal(g, x) && Terminal(g, y)
    ensures Terminal(g, x + y) && AcceptAll(g, ev, x + y, u) == AcceptAll(g, ev, x, u) + AcceptAll(g, ev, y, u)
    decreases |u|
  {
    if u != [] {
      AcceptConcat(g, ev, x, y, u[0]);
      AcceptAllConcat(g, ev, Accept(g, ev, x, u[0]), Accept(g, ev, y, u[0]), u[1..]);
    }
  }

  lemma TurnsDownConcat(g: Rules, x: seq<Stack>, y: seq<Stack>, q: Partial)
    requires WellFormed(g)
    ensures TurnsDown(g, x + y, q) <==> TurnsDown(g, x, q) && TurnsDown(g, y, q)
  {
    if TurnsDown(g, x + y, q) {
      forall i | 0 <= i < |x| ensures TerminalStack(g, x[i]) && TailRejected(g, x[i], q) {
        assert (x + y)[i] == x[i];
      }
      forall i | 0 <= i < |y| ensures TerminalStack(g, y[i]) && TailRejected(g, y[i], q) {
        assert (x + y)[|x| + i] == y[i];
      }
    }
  }

  /** A set of stacks rejects a candidate exactly when each of them does. */
  lemma RejectedBySplit(g: Rules, ev: Evidence, stacks: seq<Stack>, c: Candidate)
    requires WellFormed(g) && Ranked(g, ev) && Terminal(g, stacks) && stacks != [] && c.Ok()
    ensures Terminal(g, [stacks[0]]) && Terminal(g, stacks[1..])
    ensures RejectedAlone(g, ev, stacks, c)
       <==> RejectedAlone(g, ev, [stacks[0]], c) && RejectedAlone(g, ev, stacks[1..], c)
  {
    hide TurnsDown, AcceptAll, TerminalStack;
    var x, y := [stacks[0]], stacks[1..];
    assert TerminalStack(g, stacks[0]);
    assert stacks == x + y;
    AcceptAllConcat(g, ev, x, y, c.Rest());
    TurnsDownConcat(g, AcceptAll(g, ev, x, c.Rest()), AcceptAll(g, ev, y, c.Rest()), c.partial);
  }

  lemma AcceptNothing(g: Rules, ev: Evidence, u: seq<nat>)
    requires WellFormed(g) && Ranked(g, ev)
    ensures AcceptAll(g, ev, [], u) == []
    decreases |u|
  {
    if u != [] { AcceptNothing(g, ev, u[1..]); }
  }

  /** One stack, one step: the verdict at the class on top. */
  lemma RejectedByOne(g: Rules, ev: Evidence, s: Stack, c: Candidate)
    requires WellFormed(g) && Ranked(g, ev) && TerminalStack(g, s) && c.Ok()
    ensures Terminal(g, [s])
    ensures s == [] ==> (RejectedAlone(g, ev, [s], c) <==> !c.AtEnd() || c.partial.remain != 0)
    ensures s != [] && (c.AtEnd() || RejectedHere(g, s[|s| - 1], c)) ==>
              (RejectedAlone(g, ev, [s], c) <==> RejectedHere(g, s[|s| - 1], c))
    ensures s != [] && !c.AtEnd() && !RejectedHere(g, s[|s| - 1], c) ==>
              var next := Advance(g, ev, Push(g, s[..|s| - 1], MatchChar(g, s[|s| - 1], 0).1));
              c.Fwd().Ok() && (RejectedAlone(g, ev, [s], c) <==> RejectedAlone(g, ev, next, c.Fwd()))
  {
    assert forall i :: 0 <= i < |[s]| ==> [s][i] == s;
    if c.AtEnd() {
      RejectedAtEnd(g, ev, s, c);
    } else if s == [] {
      FirstAccept(g, ev, s, c);
      AcceptNothing(g, ev, c.Rest()[1..]);
    } else {
      RejectedByStep(g, ev, s, c);
    }
  }

  lemma RejectedAtEnd(g: Rules, ev: Evidence, s: Stack, c: Candidate)
    requires WellFormed(g) && Ranked(g, ev) && TerminalStack(g, s) && Terminal(g, [s]) && c.Ok() && c.AtEnd()
    ensures RejectedAlone(g, ev, [s], c) <==> TailRejected(g, s, c.partial)
  {
    var left := AcceptAll(g, ev, [s], c.Rest());
    assert c.Rest() == [] && left == [s] && left[0] == s;
  }

  lemma FirstAccept(g: Rules, ev: Evidence, s: Stack, c: Candidate)
    requires WellFormed(g) && Ranked(g, ev) && TerminalStack(g, s) && Terminal(g, [s]) && c.Ok() && !c.AtEnd()
    ensures c.Fwd().Ok() && Terminal(g, AcceptOne(g, ev, s, c.points[c.at]))
    ensures c.Rest()[0] == c.points[c.at] && c.Rest()[1..] == c.Fwd().Rest()
    ensures AcceptAll(g, ev, [s], c.Rest()) == AcceptAll(g, ev, AcceptOne(g, ev, s, c.points[c.at]), c.Fwd().Rest())
  {
    var u := c.Rest();
    assert u[0] == c.points[c.at] && u[1..] == c.Fwd().Rest();
    assert [s][1..] == [];
    assert Accept(g, ev, [s], u[0]) == AcceptOne(g, ev, s, u[0]);
  }

  lemma RejectedByStep(g: Rules, ev: Evidence, s: Stack, c: Candidate)
    requires WellFormed(g) && Ranked(g, ev) && TerminalStack(g, s) && Terminal(g, [s]) && c.Ok() && !c.AtEnd() && s != []
    ensures RejectedHere(g, s[|s| - 1], c) ==> RejectedAlone(g, ev, [s], c)
    ensures !RejectedHere(g, s[|s| - 1], c) ==>
              var next := Advance(g, ev, Push(g, s[..|s| - 1], MatchChar(g, s[|s| - 1], 0).1));
              c.Fwd().Ok() && (RejectedAlone(g, ev, [s], c) <==> RejectedAlone(g, ev, next, c.Fwd()))
  {
    FirstAccept(g, ev, s, c);
    ScanEndIgnoresChar(g, s[|s| - 1], c.points[c.at], 0);
    AcceptNothing(g, ev, c.Fwd().Rest());
  }

  // ---- counting ----

  lemma {:induction false} LocalCount(g: Rules, p: Pos, cands: seq<Candidate>, c: Candidate)
    requires WellFormed(g) && Valid(g, p) && IsChar(g, p) && (forall k :: 0 <= k < |cands| ==> cands[k].Ok()) && c.Ok()
    ensures multiset(LocalRejects(g, p, cands))[c] == if RejectedHere(g, p, c) then multiset(cands)[c] else 0
  {
    hide RejectedHere;
    if cands != [] {
      LocalCount(g, p, cands[1..], c);
      assert cands == [cands[0]] + cands[1..];
    }
  }

  lemma CountFirst(x: Candidate, rest: seq<Candidate>, c: Candidate)
    ensures multiset([x] + rest)[c] == (if x == c then 1 else 0) + multiset(rest)[c]
  {
  }

  lemma CountSum(a: seq<Candidate>, b: seq<Candidate>, c: Candidate)
    ensures multiset(a + b)[c] == multiset(a)[c] + multiset(b)[c]
  {
  }

  lemma PassedFirst(g: Rules, p: Pos, cands: seq<Candidate>)
    requires WellFormed(g) && Valid(g, p) && IsChar(g, p) && (forall k :: 0 <= k < |cands| ==> cands[k].Ok()) && cands != []
    ensures cands[0].Ok()
    ensures var rest := Passed(g, p, cands[1..]);
            Passed(g, p, cands) == if !cands[0].AtEnd() && !RejectedHere(g, p, cands[0]) then [cands[0].Fwd()] + rest else rest
  {
  }

  lemma {:induction false} PassedCount(g: Rules, p: Pos, cands: seq<Candidate>, c: Candidate)
    requires WellFormed(g) && Valid(g, p) && IsChar(g, p) && (forall k :: 0 <= k < |cands| ==> cands[k].Ok()) && c.Ok()
    ensures multiset(Passed(g, p, cands))[c.Fwd()] ==
            if !c.AtEnd() && !RejectedHere(g, p, c) then multiset(cands)[c] else 0
  {
    hide RejectedHere, WellFormed, Valid, IsChar;
    if cands != [] {
      var d, rest := cands[0], cands[1..];
      PassedCount(g, p, rest, c);
      assert cands == [d] + rest;
      assert d.Ok();
      assert d.Fwd() == c.Fwd() <==> d == c;
      PassedFirst(g, p, cands);
      hide Passed;
      CountFirst(d, rest, c);
      CountFirst(d.Fwd(), Passed(g, p, rest), c.Fwd());
    }
  }

  lemma {:induction false} BackCount(cands: seq<Candidate>, c: Candidate)
    requires forall x :: x in cands ==> x.at > 0
    ensures multiset(Back(cands))[c] == multiset(cands)[c.Fwd()]
  {
    hide Back;
    if cands != [] {
      var d, rest := cands[0], cands[1..];
      BackFirst(cands);
      assert cands == [d] + rest;
      BackCount(rest, c);
      CountFirst(d, rest, c.Fwd());
      CountFirst(d.(at := d.at - 1), Back(rest), c);
    }
  }

  lemma BackFirst(cands: seq<Candidate>)
    requires cands != [] && forall x :: x in cands ==> x.at > 0
    ensures cands[0].at > 0 && (forall x :: x in cands[1..] ==> x.at > 0)
    ensures Back(cands) == [cands[0].(at := cands[0].at - 1)] + Back(cands[1..])
  {
    assert cands[0] in cands;
    assert forall x :: x in cands[1..] ==> x in cands;
  }

  lemma {:induction false} EmptyCount(cands: seq<Candidate>, c: Candidate)
    requires (forall k :: 0 <= k < |cands| ==> cands[k].Ok()) && c.Ok()
    ensures multiset(EmptyRejects(cands))[c] == if !c.AtEnd() || c.partial.remain != 0 then multiset(cands)[c] else 0
  {
    if cands != [] {
      EmptyCount(cands[1..], c);
      assert cands == [cands[0]] + cands[1..];
    }
  }

  // ---- the theorem ----

  lemma {:induction false} RejectForStackCount(g: Rules, ev: Evidence, s: Stack, cands: seq<Candidate>, m: nat, c: Candidate)
    requires WellFormed(g) && Ranked(g, ev) && TerminalStack(g, s) && CandidatesOk(cands, m) && c.Ok()
    ensures Terminal(g, [s])
    ensures multiset(RejectForStack(g, ev, s, cands, m))[c] ==
            if RejectedAlone(g, ev, [s], c) then multiset(cands)[c] else 0
    decreases m, 0, 1
  {
    hide RejectedAlone, LocalRejects, Passed, Back, MatchPartial, MatchChar, Advance, Push, RejectCandidates, EmptyRejects;
    RejectedByOne(g, ev, s, c);
    if s == [] {
      EmptyCount(cands, c);
    } else if cands != [] {
      var p := s[|s| - 1];
      var rejects := LaterRejects(g, ev, s, cands, m);
      assert RejectForStack(g, ev, s, cands, m) == LocalRejects(g, p, cands) + Back(rejects);
      hide RejectForStack, LaterRejects;
      LocalCount(g, p, cands, c);
      LaterCount(g, ev, s, cands, m, c);
      CountSum(LocalRejects(g, p, cands), Back(rejects), c);
    }
  }

  /** The rejects of the stacks after the class on top, among the candidates that pass it. */
  ghost function LaterRejects(g: Rules, ev: Evidence, s: Stack, cands: seq<Candidate>, m: nat): (r: seq<Candidate>)
    requires WellFormed(g) && Ranked(g, ev) && TerminalStack(g, s) && CandidatesOk(cands, m) && s != [] && cands != []
    ensures forall x :: x in r ==> x in Passed(g, s[|s| - 1], cands) && x.at > 0
  {
    assert cands[0].Ok() && m > 0;
    PassedOk(g, s[|s| - 1], cands, m);
    RejectCandidates(g, ev, Advance(g, ev, PastTop(g, s)), Passed(g, s[|s| - 1], cands), m - 1)
  }

  ghost function PastTop(g: Rules, s: Stack): (r: Stack)
    requires WellFormed(g) && TerminalStack(g, s) && s != []
    ensures StackOk(g, r)
  {
    Push(g, s[..|s| - 1], MatchChar(g, s[|s| - 1], 0).1)
  }

  lemma {:induction false} LaterCount(g: Rules, ev: Evidence, s: Stack, cands: seq<Candidate>, m: nat, c: Candidate)
    requires WellFormed(g) && Ranked(g, ev) && TerminalStack(g, s) && CandidatesOk(cands, m) && c.Ok()
    requires s != [] && cands != []
    ensures multiset(Back(LaterRejects(g, ev, s, cands, m)))[c] ==
            if !c.AtEnd() && !RejectedHere(g, s[|s| - 1], c) && c.Fwd().Ok()
               && RejectedAlone(g, ev, Advance(g, ev, PastTop(g, s)), c.Fwd())
            then multiset(cands)[c] else 0
    decreases m, 0, 0
  {
    hide RejectedAlone, Passed, Back, MatchPartial, MatchChar, Advance, PastTop, RejectCandidates;
    var p, next, rejects := s[|s| - 1], Advance(g, ev, PastTop(g, s)), LaterRejects(g, ev, s, cands, m);
    assert cands[0].Ok() && m > 0;
    PassedOk(g, p, cands, m);
    PassedCount(g, p, cands, c);
    BackCount(rejects, c);
    if !c.AtEnd() {
      RejectCandidatesCount(g, ev, next, Passed(g, p, cands), m - 1, c.Fwd());
    } else {
      assert c.Fwd() !in Passed(g, p, cands);
      assert c.Fwd() !in rejects;
    }
  }

  /** Batched rejection equals one-by-one simulation: every candidate appears among the rejects
      exactly as often as among the candidates if the grammar turns it down, and not at all
      otherwise. */
  lemma {:induction false} RejectCandidatesCount(g: Rules, ev: Evidence, stacks: seq<Stack>, cands: seq<Candidate>, m: nat, c: Candidate)
    requires WellFormed(g) && Ranked(g, ev) && Terminal(g, stacks) && stacks != [] && CandidatesOk(cands, m) && c.Ok()
    ensures multiset(RejectCandidates(g, ev, stacks, cands, m))[c] ==
            if RejectedAlone(g, ev, stacks, c) then multiset(cands)[c] else 0
    decreases m, 1, |stacks| + 1
  {
    if cands != [] {
      RejectInTurnCount(g, ev, stacks, cands, m, c);
    }
  }

  lemma {:induction false} RejectInTurnCount(g: Rules, ev: Evidence, stacks: seq<Stack>, cands: seq<Candidate>, m: nat, c: Candidate)
    requires WellFormed(g) && Ranked(g, ev) && Terminal(g, stacks) && CandidatesOk(cands, m) && c.Ok()
    ensures multiset(RejectInTurn(g, ev, stacks, cands, m))[c] ==
            if RejectedAlone(g, ev, stacks, c) then multiset(cands)[c] else 0
    decreases m, 1, |stacks|
  {
    hide WellFormed, Ranked;
    if stacks == [] {
      AcceptNothing(g, ev, c.Rest());
    } else {
      assert TerminalStack(g, stacks[0]);
      var rejects := RejectForStack(g, ev, stacks[0], cands, m);
      SubOk(rejects, cands, m);
      RejectForStackCount(g, ev, stacks[0], cands, m, c);
      RejectInTurnCount(g, ev, stacks[1..], rejects, m, c);
      RejectedBySplit(g, ev, stacks, c);
    }
  }

  /** A candidate that ends on a character boundary is rejected exactly when accepting its code
      points one by one leaves no stack. */
  lemma WholeCandidates(g: Rules, ev: Evidence, stacks: seq<Stack>, c: Candidate)
    requires WellFormed(g) && Ranked(g, ev) && Terminal(g, stacks) && c.Ok() && c.partial.remain == 0
    ensures RejectedAlone(g, ev, stacks, c) <==> AcceptAll(g, ev, stacks, c.Rest()) == []
  {
    var left := AcceptAll(g, ev, stacks, c.Rest());
    if left != [] {
      assert TerminalStack(g, left[0]) && !TailRejected(g, left[0], c.partial);
    }
  }

  lemma {:induction false} AcceptAllSnoc(g: Rules, ev: Evidence, stacks: seq<Stack>, u: seq<nat>, c: nat)
    requires WellFormed(g) && Ranked(g, ev) && Terminal(g, stacks)
    ensures AcceptAll(g, ev, stacks, u + [c]) == Accept(g, ev, AcceptAll(g, ev, stacks, u), c)
    decreases |u|
  {
    if u == [] {
      assert (u + [c])[1..] == [];
    } else {
      AcceptAllSnoc(g, ev, Accept(g, ev, stacks, u[0]), u[1..], c);
      assert (u + [c])[1..] == u[1..] + [c];
    }
  }

  lemma {:induction false} AcceptSome(g: Rules, ev: Evidence, stacks: seq<Stack>, i: nat, c: nat)
    requires WellFormed(g) && Ranked(g, ev) && Terminal(g, stacks) && i < |stacks|
    requires stacks[i] != [] && TerminalStack(g, stacks[i]) && Matches(g, stacks[i][|stacks[i]| - 1], c)
    ensures Accept(g, ev, stacks, c) != []
    decreases i
  {
    hide WellFormed, Ranked;
    assert TerminalStack(g, stacks[0]);
    if i > 0 { AcceptSome(g, ev, stacks[1..], i - 1, c); }
  }

  /** A kept candidate that ends inside a character can be completed to something the grammar
      accepts. */
  lemma KeptPartialCompletes(g: Rules, ev: Evidence, stacks: seq<Stack>, c: Candidate) returns (cp: nat)
    requires WellFormed(g) && RangesOrdered(g) && Ranked(g, ev) && Terminal(g, stacks) && c.Ok()
    requires 0 < c.partial.remain <= 3 && !RejectedAlone(g, ev, stacks, c)
    ensures Completes(c.partial, cp) && AcceptAll(g, ev, stacks, c.Rest() + [cp]) != []
  {
    var left := AcceptAll(g, ev, stacks, c.Rest());
    var i :| 0 <= i < |left| && !(TerminalStack(g, left[i]) && TailRejected(g, left[i], c.partial));
    assert TerminalStack(g, left[i]);
    var p := left[i][|left[i]| - 1];
    PartialMatchMeans(g, p, c.partial);
    if At(g, p).kind == CHAR {
      cp :| Completes(c.partial, cp) && Matches(g, p, cp);
    } else {
      cp := Low(c.partial);
      assert Completes(c.partial, cp);
    }
    AcceptSome(g, ev, left, i, cp);
    AcceptAllSnoc(g, ev, stacks, c.Rest(), cp);
  }

  // ---- accepting the sampled token ----

  /** `whisper_grammar_accept_token` on a token's text bytes. */
  function AcceptToken(g: Rules, ghost ev: Evidence, stacks: seq<Stack>, q: Partial, text: seq<Byte>): (r: (seq<Stack>, Partial))
    requires WellFormed(g) && Ranked(g, ev) && Terminal(g, stacks)
    ensures Terminal(g, r.0)
  {
    if |g| == 0 || stacks == [] || text[..if |text| < 2 then |text| else 2] == [91, 95] then (stacks, q)  // "[_"
    else
      var d := Decode(text, q);
      (AcceptAll(g, ev, stacks, if |d.points| > 0 then d.points[..|d.points| - 1] else []), d.partial)
  }

  /** The rejector foresees the acceptor: a token whose text ends on a character boundary is
      rejected exactly when accepting it would leave the grammar without stacks. */
  lemma RejectorForeseesAcceptor(g: Rules, ev: Evidence, stacks: seq<Stack>, q: Partial, text: seq<Byte>, id: int)
    requires WellFormed(g) && Ranked(g, ev) && Terminal(g, stacks) && stacks != [] && |g| > 0
    requires text[..if |text| < 2 then |text| else 2] != [91, 95]
    requires var d := Decode(text, q); d.partial.remain == 0 && Candidate(id, d.points, 0, d.partial).Ok()
    ensures var d := Decode(text, q); var c := Candidate(id, d.points, 0, d.partial);
            multiset(RejectCandidates(g, ev, stacks, [c], |d.points|))[c] == 1
            <==> AcceptToken(g, ev, stacks, q, text).0 == []
  {
    var d := Decode(text, q);
    var c := Candidate(id, d.points, 0, d.partial);
    assert CandidatesOk([c], |d.points|);
    RejectCandidatesCount(g, ev, stacks, [c], |d.points|, c);
    WholeCandidates(g, ev, stacks, c);
    assert c.Rest() == d.points[..|d.points| - 1];
  }
}
