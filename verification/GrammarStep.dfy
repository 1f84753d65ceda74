/** Stepping the set of stacks: `whisper_grammar_advance_stack`, `_accept` and `_init`, and the
    theorem that stepping is taking the derivative of the language. */
module GrammarStep {
  import opened Grammar
  import opened GrammarLang

  // ---- grammars without left recursion ----

  /** Evidence: `nullable` is closed under "some alternate is a run of nullable references", and
      every reference that an alternate can reach over nullable references has smaller rank. */
  datatype Evidence = Evidence(nullable: set<nat>, rank: seq<nat>)

  predicate NullSeq(g: Rules, nullable: set<nat>, p: Pos)
    requires WellFormed(g) && Valid(g, p)
    decreases |g[p.rule]| - p.idx
  {
    assert ElementOk(g, p.rule, p.idx);
    IsEnd(g, p) || (At(g, p).kind == RULE_REF && At(g, p).value in nullable && NullSeq(g, nullable, p.Next()))
  }

  /** `p` is reached from the start of its alternate over nullable references only. */
  predicate LeftMost(g: Rules, nullable: set<nat>, p: Pos)
    requires Valid(g, p)
    decreases p.idx
  {
    AltStart(g, p) ||
    (p.idx > 0 && At(g, Pos(p.rule, p.idx - 1)).kind == RULE_REF && At(g, Pos(p.rule, p.idx - 1)).value in nullable
     && LeftMost(g, nullable, Pos(p.rule, p.idx - 1)))
  }

  ghost predicate Ranked(g: Rules, ev: Evidence)
    requires WellFormed(g)
  {
    && |ev.rank| == |g|
    && (forall a :: AltStart(g, a) && NullSeq(g, ev.nullable, a) ==> a.rule in ev.nullable)
    && (forall p :: Valid(g, p) && At(g, p).kind == RULE_REF && LeftMost(g, ev.nullable, p) && At(g, p).value < |g| ==>
          ev.rank[At(g, p).value] < ev.rank[p.rule])
  }

  // ---- why expanding a stack terminates ----

  ghost function MaxLength(g: Rules): nat {
    if g == [] then 0 else if |g[0]| > MaxLength(g[1..]) then |g[0]| else MaxLength(g[1..])
  }

  lemma {:induction false} MaxLengthBounds(g: Rules, r: nat)
    requires r < |g|
    ensures |g[r]| <= MaxLength(g)
  {
    if r > 0 { MaxLengthBounds(g[1..], r - 1); }
  }

  /** Expansions that rules of rank below `k` can cause. */
  ghost function Bound(g: Rules, k: nat): nat {
    if k == 0 then 0 else MaxLength(g) * (1 + Bound(g, k - 1))
  }

  lemma {:induction false} BoundMonotone(g: Rules, j: nat, k: nat)
    requires j <= k
    ensures Bound(g, j) <= Bound(g, k)
    decreases k
  {
    if j < k {
      if j > 0 {
        BoundMonotone(g, j - 1, k - 1);
        MulMonotone(MaxLength(g), 1 + Bound(g, j - 1), 1 + Bound(g, k - 1));
      }
    }
  }

  lemma MulMonotone(m: nat, x: nat, y: nat)
    requires x <= y
    ensures m * x <= m * y
  {
  }

  ghost function RuleWeight(g: Rules, ev: Evidence, r: nat): nat
    requires r < |ev.rank|
  {
    Bound(g, ev.rank[r] + 1)
  }

  /** Expansions from position `p` on until a character or the end of the alternate. */
  ghost function Weight(g: Rules, ev: Evidence, p: Pos): nat
    requires WellFormed(g) && Valid(g, p) && |ev.rank| == |g|
    decreases |g[p.rule]| - p.idx
  {
    assert ElementOk(g, p.rule, p.idx);
    if At(g, p).kind != RULE_REF then 0
    else 1 + RuleWeight(g, ev, At(g, p).value) + if At(g, p).value in ev.nullable then Weight(g, ev, p.Next()) else 0
  }

  ghost function Measure(g: Rules, ev: Evidence, s: Stack): nat
    requires WellFormed(g) && StackOk(g, s) && |ev.rank| == |g|
  {
    if s == [] then 0
    else
      var p := s[|s| - 1];
      Weight(g, ev, p) + if NullSeq(g, ev.nullable, p) then Measure(g, ev, s[..|s| - 1]) else 0
  }

  /** From a leftmost position on, at most `MaxLength - idx` references of smaller rank count. */
  lemma {:induction false} LeftMostWeight(g: Rules, ev: Evidence, p: Pos)
    requires WellFormed(g) && Ranked(g, ev) && Valid(g, p) && LeftMost(g, ev.nullable, p)
    ensures Weight(g, ev, p) <= (|g[p.rule]| - p.idx) * (1 + Bound(g, ev.rank[p.rule]))
    decreases |g[p.rule]| - p.idx
  {
    hide Weight, Bound, LeftMost;
    var n, b := |g[p.rule]| - p.idx, 1 + Bound(g, ev.rank[p.rule]);
    if At(g, p).kind != RULE_REF {
      NoReference(g, ev, p);
      MulStep(n, b);
    } else {
      ReferenceIsCheaper(g, ev, p);
      if At(g, p).value in ev.nullable {
        LeftMostNext(g, ev.nullable, p);
        LeftMostWeight(g, ev, p.Next());
        NullableReference(g, ev, p);
        FirstAndRest(n, b, RuleWeight(g, ev, At(g, p).value), Weight(g, ev, p.Next()));
      } else {
        LastReference(g, ev, p);
        FirstAndRest(n, b, RuleWeight(g, ev, At(g, p).value), 0);
      }
    }
  }

  lemma NoReference(g: Rules, ev: Evidence, p: Pos)
    requires WellFormed(g) && Valid(g, p) && |ev.rank| == |g| && At(g, p).kind != RULE_REF
    ensures Weight(g, ev, p) == 0
  {
  }

  /** The last reference that can be reached from here without a character. */
  lemma LastReference(g: Rules, ev: Evidence, p: Pos)
    requires WellFormed(g) && Valid(g, p) && |ev.rank| == |g| && At(g, p).kind == RULE_REF && At(g, p).value < |g|
    requires At(g, p).value !in ev.nullable
    ensures Weight(g, ev, p) == 1 + RuleWeight(g, ev, At(g, p).value)
  {
  }

  lemma NullableReference(g: Rules, ev: Evidence, p: Pos)
    requires WellFormed(g) && Valid(g, p) && |ev.rank| == |g| && At(g, p).kind == RULE_REF && At(g, p).value < |g|
    requires At(g, p).value in ev.nullable && Valid(g, p.Next())
    ensures Weight(g, ev, p) == 1 + RuleWeight(g, ev, At(g, p).value) + Weight(g, ev, p.Next())
  {
  }

  /** A leftmost reference leads to a rule of smaller rank. */
  lemma ReferenceIsCheaper(g: Rules, ev: Evidence, p: Pos)
    requires WellFormed(g) && Ranked(g, ev) && Valid(g, p) && LeftMost(g, ev.nullable, p) && At(g, p).kind == RULE_REF
    ensures At(g, p).value < |g| == |ev.rank| && RuleWeight(g, ev, At(g, p).value) <= Bound(g, ev.rank[p.rule])
  {
    hide Weight, Bound, LeftMost;
    assert ElementOk(g, p.rule, p.idx);
    BoundMonotone(g, ev.rank[At(g, p).value] + 1, ev.rank[p.rule]);
  }

  lemma FirstAndRest(n: nat, b: nat, first: nat, rest: nat)
    requires n > 0 && first < b && (rest == 0 || rest <= (n - 1) * b)
    ensures 1 + first + rest <= n * b
  {
    MulStep(n, b);
  }

  lemma LeftMostNext(g: Rules, nullable: set<nat>, p: Pos)
    requires WellFormed(g) && Valid(g, p) && LeftMost(g, nullable, p) && At(g, p).kind == RULE_REF && At(g, p).value in nullable
    ensures Valid(g, p.Next()) && LeftMost(g, nullable, p.Next())
  {
    assert ElementOk(g, p.rule, p.idx);
    assert Pos(p.Next().rule, p.Next().idx - 1) == p;
  }

  lemma MulStep(n: nat, b: nat)
    requires n > 0
    ensures n * b == (n - 1) * b + b && (n - 1) * b >= 0
  {
  }

  lemma MulMonotoneLeft(x: nat, y: nat, b: nat)
    requires x <= y
    ensures x * b <= y * b
  {
    MulMonotone(b, x, y);
  }

  lemma AltWeight(g: Rules, ev: Evidence, a: Pos)
    requires WellFormed(g) && Ranked(g, ev) && AltStart(g, a)
    ensures Weight(g, ev, a) <= RuleWeight(g, ev, a.rule)
  {
    LeftMostWeight(g, ev, a);
    MaxLengthBounds(g, a.rule);
    var b := 1 + Bound(g, ev.rank[a.rule]);
    MulMonotoneLeft(|g[a.rule]| - a.idx, MaxLength(g), b);
    assert RuleWeight(g, ev, a.rule) == MaxLength(g) * b;
  }

  lemma PushMeasure(g: Rules, ev: Evidence, s: Stack, p: Pos)
    requires WellFormed(g) && |ev.rank| == |g| && StackOk(g, s) && IsItem(g, p)
    ensures Measure(g, ev, Push(g, s, p)) ==
            Weight(g, ev, p) + if NullSeq(g, ev.nullable, p) then Measure(g, ev, s) else 0
  {
    if !IsEnd(g, p) {
      assert (s + [p])[..|s|] == s;
    }
  }

  /** Every expansion makes the stack cheaper. */
  lemma ExpandMeasure(g: Rules, ev: Evidence, s: Stack, a: Pos)
    requires WellFormed(g) && Ranked(g, ev) && StackOk(g, s) && s != []
    requires At(g, s[|s| - 1]).kind == RULE_REF && AltStart(g, a) && a.rule == At(g, s[|s| - 1]).value
    ensures Measure(g, ev, Expand(g, s, a)) < Measure(g, ev, s)
  {
    var p, rest := s[|s| - 1], s[..|s| - 1];
    AfterRef(g, p);
    AltStartIsItem(g, a);
    PushMeasure(g, ev, rest, p.Next());
    PushMeasure(g, ev, Push(g, rest, p.Next()), a);
    AltWeight(g, ev, a);
  }

  // ---- advancing ----

  /** All ways to expand references on top until a character class is on top or the stack is
      empty. */
  function Advance(g: Rules, ghost ev: Evidence, s: Stack): (r: seq<Stack>)
    requires WellFormed(g) && Ranked(g, ev) && StackOk(g, s)
    ensures |r| >= 1 && Terminal(g, r)
    decreases Measure(g, ev, s), 1, 0
  {
    if s == [] then [[]]
    else if At(g, s[|s| - 1]).kind == RULE_REF then
      AfterRef(g, s[|s| - 1]);
      Alternates(g, ev, s, Pos(At(g, s[|s| - 1]).value, 0))
    else [s]
  }

  /** Only empty stacks and stacks with a character class on top. */
  ghost predicate Terminal(g: Rules, stacks: seq<Stack>) {
    forall i :: 0 <= i < |stacks| ==> TerminalStack(g, stacks[i])
  }

  predicate TerminalStack(g: Rules, s: Stack) {
    StackOk(g, s) && (s == [] || IsChar(g, s[|s| - 1]))
  }

  lemma NextAltStart(g: Rules, a: Pos)
    requires WellFormed(g) && Valid(g, a) && At(g, SeqEnd(g, a)).kind == ALT
    ensures AltStart(g, SeqEnd(g, a).Next()) && SeqEnd(g, a).idx >= a.idx
  {
    assert ElementOk(g, a.rule, SeqEnd(g, a).idx);
  }

  /** Expand with alternate `a` of the referenced rule and all later ones. */
  function Alternates(g: Rules, ghost ev: Evidence, s: Stack, a: Pos): (r: seq<Stack>)
    requires WellFormed(g) && Ranked(g, ev) && StackOk(g, s) && s != []
    requires At(g, s[|s| - 1]).kind == RULE_REF && AltStart(g, a) && a.rule == At(g, s[|s| - 1]).value
    ensures |r| >= 1 && Terminal(g, r)
    decreases Measure(g, ev, s), 0, |g[a.rule]| - a.idx
  {
    ExpandMeasure(g, ev, s, a);
    var first := Advance(g, ev, Expand(g, s, a));
    var e := SeqEnd(g, a);
    if At(g, e).kind == ALT then
      NextAltStart(g, a);
      first + Alternates(g, ev, s, e.Next())
    else first
  }

  lemma SetConcat(g: Rules, x: seq<Stack>, y: seq<Stack>, w: seq<nat>)
    requires WellFormed(g) && AllOk(g, x) && AllOk(g, y)
    ensures AllOk(g, x + y) && (SetLang(g, x + y, w) <==> SetLang(g, x, w) || SetLang(g, y, w))
  {
    if SetLang(g, x, w) {
      var i :| 0 <= i < |x| && StackLang(g, x[i], w);
      assert (x + y)[i] == x[i];
    }
    if SetLang(g, y, w) {
      var i :| 0 <= i < |y| && StackLang(g, y[i], w);
      assert (x + y)[|x| + i] == y[i];
    }
  }

  lemma SingleSet(g: Rules, s: Stack, w: seq<nat>)
    requires WellFormed(g) && StackOk(g, s)
    ensures SetLang(g, [s], w) <==> StackLang(g, s, w)
  {
    if StackLang(g, s, w) { assert [s][0] == s; }
  }

  /** Advancing preserves the language. */
  lemma {:induction false} AdvanceLang(g: Rules, ev: Evidence, s: Stack, w: seq<nat>)
    requires WellFormed(g) && Ranked(g, ev) && StackOk(g, s)
    ensures AllOk(g, Advance(g, ev, s)) && (SetLang(g, Advance(g, ev, s), w) <==> StackLang(g, s, w))
    decreases Measure(g, ev, s), 1, 0
  {
    if s != [] && At(g, s[|s| - 1]).kind == RULE_REF {
      AfterRef(g, s[|s| - 1]);
      var a := Pos(At(g, s[|s| - 1]).value, 0);
      AlternatesLang(g, ev, s, a, w);
      ExpandLang(g, s, w);
      if b :| AltStart(g, b) && b.rule == a.rule && StackLang(g, Expand(g, s, b), w) {
        assert AltFrom(g, s, a, b, w);
      }
      if b :| AltFrom(g, s, a, b, w) {
        assert AltStart(g, b) && b.rule == a.rule && StackLang(g, Expand(g, s, b), w);
      }
    } else {
      SingleSet(g, s, w);
    }
  }

  /** Alternate `b`, at `a` or later, derives `w` on top of the rest of the stack. */
  ghost predicate AltFrom(g: Rules, s: Stack, a: Pos, b: Pos, w: seq<nat>)
    requires WellFormed(g) && StackOk(g, s) && s != [] && At(g, s[|s| - 1]).kind == RULE_REF
  {
    AltStart(g, b) && b.rule == a.rule && b.idx >= a.idx && StackLang(g, Expand(g, s, b), w)
  }

  lemma {:induction false} AlternatesLang(g: Rules, ev: Evidence, s: Stack, a: Pos, w: seq<nat>)
    requires WellFormed(g) && Ranked(g, ev) && StackOk(g, s) && s != []
    requires At(g, s[|s| - 1]).kind == RULE_REF && AltStart(g, a) && a.rule == At(g, s[|s| - 1]).value
    ensures AllOk(g, Alternates(g, ev, s, a))
    ensures SetLang(g, Alternates(g, ev, s, a), w) <==> exists b :: AltFrom(g, s, a, b, w)
    decreases Measure(g, ev, s), 0, |g[a.rule]| - a.idx
  {
    ExpandMeasure(g, ev, s, a);
    var t := Expand(g, s, a);
    var first := Advance(g, ev, t);
    AdvanceLang(g, ev, t, w);
    var e := SeqEnd(g, a);
    if At(g, e).kind == ALT {
      NextAltStart(g, a);
      AlternatesLang(g, ev, s, e.Next(), w);
      SetConcat(g, first, Alternates(g, ev, s, e.Next()), w);
    }
    AltFromSplit(g, s, a, w);
  }

  lemma AltFromSplit(g: Rules, s: Stack, a: Pos, w: seq<nat>)
    requires WellFormed(g) && StackOk(g, s) && s != []
    requires At(g, s[|s| - 1]).kind == RULE_REF && AltStart(g, a)
    ensures var e := SeqEnd(g, a);
            (exists b :: AltFrom(g, s, a, b, w)) <==>
            StackLang(g, Expand(g, s, a), w) || (At(g, e).kind == ALT && exists b :: AltFrom(g, s, e.Next(), b, w))
  {
    var e := SeqEnd(g, a);
    if StackLang(g, Expand(g, s, a), w) { assert AltFrom(g, s, a, a, w); }
    if At(g, e).kind == ALT {
      if b :| AltFrom(g, s, e.Next(), b, w) { assert AltFrom(g, s, a, b, w); }
    }
    if b :| AltFrom(g, s, a, b, w) {
      NextAlternate(g, a, b);
      if b != a { assert AltFrom(g, s, e.Next(), b, w); }
    }
  }

  /** There is no alternate between `a` and the end of `a`'s alternate. */
  lemma NextAlternate(g: Rules, a: Pos, b: Pos)
    requires WellFormed(g) && AltStart(g, a) && AltStart(g, b) && b.rule == a.rule && b.idx >= a.idx
    ensures b == a || (At(g, SeqEnd(g, a)).kind == ALT && b.idx >= SeqEnd(g, a).idx + 1)
  {
    if b != a {
      var e := SeqEnd(g, a);
      assert ElementOk(g, e.rule, e.idx);
      assert IsEnd(g, Pos(a.rule, b.idx - 1));
    }
  }

  // ---- accepting a code point ----

  /** The stacks after reading `c`: those on top of which the class matches step over it. */
  function Accept(g: Rules, ghost ev: Evidence, stacks: seq<Stack>, c: nat): (r: seq<Stack>)
    requires WellFormed(g) && Ranked(g, ev) && Terminal(g, stacks)
    ensures Terminal(g, r)
    decreases |stacks|
  {
    if stacks == [] then []
    else
      assert TerminalStack(g, stacks[0]);
      AcceptOne(g, ev, stacks[0], c) + Accept(g, ev, stacks[1..], c)
  }

  function AcceptOne(g: Rules, ghost ev: Evidence, s: Stack, c: nat): (r: seq<Stack>)
    requires WellFormed(g) && Ranked(g, ev) && TerminalStack(g, s)
    ensures Terminal(g, r)
  {
    if s == [] then []
    else
      var (matches, after) := MatchChar(g, s[|s| - 1], c);
      if matches then Advance(g, ev, Push(g, s[..|s| - 1], after)) else []
  }

  lemma AcceptOneLang(g: Rules, ev: Evidence, s: Stack, c: nat, w: seq<nat>)
    requires WellFormed(g) && Ranked(g, ev) && TerminalStack(g, s)
    ensures AllOk(g, AcceptOne(g, ev, s, c))
    ensures SetLang(g, AcceptOne(g, ev, s, c), w) <==> StackLang(g, s, [c] + w)
  {
    if s != [] {
      var p := s[|s| - 1];
      CharLang(g, s, [c] + w);
      assert ([c] + w)[1..] == w;
      ScanEndIgnoresChar(g, p, c, 0);
      if MatchChar(g, p, c).0 {
        AdvanceLang(g, ev, Push(g, s[..|s| - 1], MatchChar(g, p, c).1), w);
      }
    }
  }

  lemma SetCons(g: Rules, stacks: seq<Stack>, w: seq<nat>)
    requires WellFormed(g) && AllOk(g, stacks) && stacks != []
    ensures SetLang(g, stacks, w) <==> StackLang(g, stacks[0], w) || SetLang(g, stacks[1..], w)
  {
    assert stacks == [stacks[0]] + stacks[1..];
    SingleSet(g, stacks[0], w);
    SetConcat(g, [stacks[0]], stacks[1..], w);
  }

  /** `whisper_grammar_accept` is the language derivative: the words accepted after `c` are
      exactly those that extend `c` to a word accepted before. */
  lemma {:induction false} AcceptIsDerivative(g: Rules, ev: Evidence, stacks: seq<Stack>, c: nat, w: seq<nat>)
    requires WellFormed(g) && Ranked(g, ev) && Terminal(g, stacks)
    ensures SetLang(g, Accept(g, ev, stacks, c), w) <==> SetLang(g, stacks, [c] + w)
    decreases |stacks|
  {
    if stacks != [] {
      assert TerminalStack(g, stacks[0]);
      AcceptOneLang(g, ev, stacks[0], c, w);
      AcceptIsDerivative(g, ev, stacks[1..], c, w);
      SetConcat(g, AcceptOne(g, ev, stacks[0], c), Accept(g, ev, stacks[1..], c), w);
      SetCons(g, stacks, [c] + w);
    }
  }

  // ---- starting ----

  /** The stacks of alternate `a` of the start rule and of all later ones. */
  function InitFrom(g: Rules, ghost ev: Evidence, a: Pos): (r: seq<Stack>)
    requires WellFormed(g) && Ranked(g, ev) && AltStart(g, a)
    ensures |r| >= 1 && Terminal(g, r)
    decreases |g[a.rule]| - a.idx
  {
    AltStartIsItem(g, a);
    var first := Advance(g, ev, Push(g, [], a));
    var e := SeqEnd(g, a);
    if At(g, e).kind == ALT then
      NextAltStart(g, a);
      first + InitFrom(g, ev, e.Next())
    else first
  }

  function Init(g: Rules, ghost ev: Evidence, start: nat): (r: seq<Stack>)
    requires WellFormed(g) && Ranked(g, ev) && start < |g|
    ensures |r| >= 1 && Terminal(g, r)
  {
    InitFrom(g, ev, Pos(start, 0))
  }

  lemma PushOnEmpty(g: Rules, a: Pos, w: seq<nat>)
    requires WellFormed(g) && IsItem(g, a)
    ensures StackLang(g, Push(g, [], a), w) <==> Lang(g, a, w)
  {
    PushLang(g, [], a, w);
    if Lang(g, a, w) {
      assert w[..|w|] == w && w[|w|..] == [];
      assert Cut(g, [], a, w, |w|);
    }
    if k: nat :| Cut(g, [], a, w, k) {
      assert w[..k] == w;
    }
  }

  ghost predicate DerivesFrom(g: Rules, a: Pos, b: Pos, w: seq<nat>)
    requires WellFormed(g)
  {
    AltStart(g, b) && b.rule == a.rule && b.idx >= a.idx && IsItem(g, b) && Lang(g, b, w)
  }

  lemma {:induction false} InitFromLang(g: Rules, ev: Evidence, a: Pos, w: seq<nat>)
    requires WellFormed(g) && Ranked(g, ev) && AltStart(g, a)
    ensures SetLang(g, InitFrom(g, ev, a), w) <==> exists b :: DerivesFrom(g, a, b, w)
    decreases |g[a.rule]| - a.idx
  {
    AltStartIsItem(g, a);
    var t := Push(g, [], a);
    AdvanceLang(g, ev, t, w);
    PushOnEmpty(g, a, w);
    var e := SeqEnd(g, a);
    if Lang(g, a, w) { assert DerivesFrom(g, a, a, w); }
    if At(g, e).kind == ALT {
      NextAltStart(g, a);
      InitFromLang(g, ev, e.Next(), w);
      SetConcat(g, Advance(g, ev, t), InitFrom(g, ev, e.Next()), w);
      if b :| DerivesFrom(g, e.Next(), b, w) { assert DerivesFrom(g, a, b, w); }
    }
    if b :| DerivesFrom(g, a, b, w) {
      NextAlternate(g, a, b);
      if b != a { assert At(g, e).kind == ALT && DerivesFrom(g, e.Next(), b, w); }
    }
  }

  /** The initial stacks accept exactly the start rule's language. */
  lemma InitLang(g: Rules, ev: Evidence, start: nat, w: seq<nat>)
    requires WellFormed(g) && Ranked(g, ev) && start < |g|
    ensures SetLang(g, Init(g, ev, start), w) <==> RuleLang(g, start, w)
  {
    var a := Pos(start, 0);
    InitFromLang(g, ev, a, w);
    if b :| DerivesFrom(g, a, b, w) { assert RuleLang(g, start, w); }
    if b :| AltStart(g, b) && b.rule == start && IsItem(g, b) && Lang(g, b, w) { assert DerivesFrom(g, a, b, w); }
  }

  // ---- whole runs ----

  function AcceptAll(g: Rules, ghost ev: Evidence, stacks: seq<Stack>, u: seq<nat>): (r: seq<Stack>)
    requires WellFormed(g) && Ranked(g, ev) && Terminal(g, stacks)
    ensures Terminal(g, r)
    decreases |u|
  {
    if u == [] then stacks else AcceptAll(g, ev, Accept(g, ev, stacks, u[0]), u[1..])
  }

  lemma {:induction false} AcceptAllIsDerivative(g: Rules, ev: Evidence, stacks: seq<Stack>, u: seq<nat>, w: seq<nat>)
    requires WellFormed(g) && Ranked(g, ev) && Terminal(g, stacks)
    ensures SetLang(g, AcceptAll(g, ev, stacks, u), w) <==> SetLang(g, stacks, u + w)
    decreases |u|
  {
    if u == [] {
      assert u + w == w;
    } else {
      AcceptAllIsDerivative(g, ev, Accept(g, ev, stacks, u[0]), u[1..], w);
      AcceptIsDerivative(g, ev, stacks, u[0], u[1..] + w);
      assert [u[0]] + (u[1..] + w) == u + w;
    }
  }

  /** A terminal set accepts the empty word exactly when it has an empty stack. */
  lemma EmptyWord(g: Rules, stacks: seq<Stack>)
    requires WellFormed(g) && Terminal(g, stacks)
    ensures SetLang(g, stacks, []) <==> [] in stacks
  {
    forall i | 0 <= i < |stacks| ensures StackLang(g, stacks[i], []) <==> stacks[i] == [] {
      assert TerminalStack(g, stacks[i]);
      if stacks[i] != [] { CharLang(g, stacks[i], []); }
    }
  }

  /** Over any text read so far: what may follow is exactly what completes it to a word of the
      grammar, and an empty stack is there exactly when the text is such a word. */
  lemma GrammarDecides(g: Rules, ev: Evidence, start: nat, u: seq<nat>, w: seq<nat>)
    requires WellFormed(g) && Ranked(g, ev) && start < |g|
    ensures var stacks := AcceptAll(g, ev, Init(g, ev, start), u);
            && (SetLang(g, stacks, w) <==> RuleLang(g, start, u + w))
            && ([] in stacks <==> RuleLang(g, start, u))
  {
    var stacks := AcceptAll(g, ev, Init(g, ev, start), u);
    AcceptAllIsDerivative(g, ev, Init(g, ev, start), u, w);
    InitLang(g, ev, start, u + w);
    AcceptAllIsDerivative(g, ev, Init(g, ev, start), u, []);
    InitLang(g, ev, start, u + []);
    EmptyWord(g, stacks);
    assert u + [] == u;
  }
}
