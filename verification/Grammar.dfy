/** Grammar-constrained sampling: sets of pushdown stacks over a grammar, stepped one code point
    at a time.  Places in the rules are (rule, index) positions. */
module Grammar {

  datatype Kind = END | ALT | RULE_REF | CHAR | CHAR_NOT | CHAR_RNG_UPPER | CHAR_ALT

  datatype Element = Element(kind: Kind, value: nat)

  type Rules = seq<seq<Element>>

  datatype Pos = Pos(rule: nat, idx: nat) {
    function Next(): Pos { Pos(rule, idx + 1) }
  }

  /** The top is the last element. */
  type Stack = seq<Pos>

  predicate IsModifier(k: Kind) { k == CHAR_RNG_UPPER || k == CHAR_ALT }

  /** One element of a rule in its place: references exist; a range end follows a character,
      an alternative character follows a character or a range end; END is last and only last. */
  predicate ElementOk(g: Rules, r: nat, i: nat)
    requires r < |g| && i < |g[r]|
  {
    var e := g[r][i];
    && (e.kind == END <==> i == |g[r]| - 1)
    && (e.kind == RULE_REF ==> e.value < |g|)
    && (e.kind == CHAR_RNG_UPPER ==> i > 0 && g[r][i - 1].kind in {CHAR, CHAR_NOT, CHAR_ALT})
    && (e.kind == CHAR_ALT ==> i > 0 && g[r][i - 1].kind in {CHAR, CHAR_NOT, CHAR_ALT, CHAR_RNG_UPPER})
  }

  ghost predicate WellFormed(g: Rules) {
    forall r :: 0 <= r < |g| ==> |g[r]| > 0 && forall i :: 0 <= i < |g[r]| ==> ElementOk(g, r, i)
  }

  predicate Valid(g: Rules, p: Pos) { p.rule < |g| && p.idx < |g[p.rule]| }

  function At(g: Rules, p: Pos): Element
    requires Valid(g, p)
  {
    g[p.rule][p.idx]
  }

  /** `whisper_grammar_is_end_of_sequence` */
  predicate IsEnd(g: Rules, p: Pos)
    requires Valid(g, p)
  {
    At(g, p).kind == END || At(g, p).kind == ALT
  }

  predicate IsChar(g: Rules, p: Pos)
    requires Valid(g, p)
  {
    At(g, p).kind == CHAR || At(g, p).kind == CHAR_NOT
  }

  /** A place where an item of an alternate starts, or the alternate ends. */
  predicate IsItem(g: Rules, p: Pos) {
    Valid(g, p) && !IsModifier(At(g, p).kind)
  }

  predicate StackOk(g: Rules, s: Stack) {
    forall i :: 0 <= i < |s| ==> IsItem(g, s[i]) && !IsEnd(g, s[i])
  }

  // ---- character ranges ----

  /** Step over one range of a character class: `[a-z]` or `[a]`. */
  function RangeEnd(g: Rules, p: Pos): (q: Pos)
    requires WellFormed(g) && Valid(g, p) && At(g, p).kind != END
    ensures Valid(g, q) && q.rule == p.rule && q.idx > p.idx
    ensures At(g, p).kind in {CHAR, CHAR_NOT, CHAR_ALT} ==> At(g, q).kind != CHAR_RNG_UPPER
  {
    assert ElementOk(g, p.rule, p.idx);
    assert ElementOk(g, p.rule, p.idx + 1);
    if At(g, p.Next()).kind == CHAR_RNG_UPPER then
      assert p.idx + 2 < |g[p.rule]|;
      assert ElementOk(g, p.rule, p.idx + 2);
      p.Next().Next()
    else p.Next()
  }

  predicate InRange(g: Rules, p: Pos, c: nat)
    requires WellFormed(g) && Valid(g, p) && At(g, p).kind != END
  {
    assert ElementOk(g, p.rule, p.idx);
    if At(g, p.Next()).kind == CHAR_RNG_UPPER then At(g, p).value <= c <= At(g, p.Next()).value
    else At(g, p).value == c
  }

  /** Whether some range of the class at `p` has `c`, and where the class ends. */
  function ScanClass(g: Rules, p: Pos, c: nat): (r: (bool, Pos))
    requires WellFormed(g) && Valid(g, p) && At(g, p).kind in {CHAR, CHAR_NOT, CHAR_ALT}
    ensures IsItem(g, r.1) && r.1.rule == p.rule && r.1.idx > p.idx
    decreases |g[p.rule]| - p.idx
  {
    var q := RangeEnd(g, p);
    if At(g, q).kind == CHAR_ALT then
      var (found, e) := ScanClass(g, q, c);
      (InRange(g, p, c) || found, e)
    else (InRange(g, p, c), q)
  }

  /** `whisper_grammar_match_char` */
  function MatchChar(g: Rules, p: Pos, c: nat): (r: (bool, Pos))
    requires WellFormed(g) && Valid(g, p) && IsChar(g, p)
    ensures IsItem(g, r.1) && r.1.rule == p.rule && r.1.idx > p.idx
  {
    var (found, e) := ScanClass(g, p, c);
    (found == (At(g, p).kind == CHAR), e)
  }

  /** The do-while loop of the source computes it. */
  method MatchCharLoop(g: Rules, start: Pos, c: nat) returns (matches: bool, pos: Pos)
    requires WellFormed(g) && Valid(g, start) && IsChar(g, start)
    ensures (matches, pos) == MatchChar(g, start, c)
  {
    pos := start;
    var found := false;
    var more := true;
    while more
      invariant Valid(g, pos) && pos.rule == start.rule
      invariant more ==> At(g, pos).kind in {CHAR, CHAR_NOT, CHAR_ALT}
      invariant more ==> ScanClass(g, start, c) == (found || ScanClass(g, pos, c).0, ScanClass(g, pos, c).1)
      invariant !more ==> ScanClass(g, start, c) == (found, pos)
      decreases |g[start.rule]| - pos.idx, more
    {
      found := found || InRange(g, pos, c);
      pos := RangeEnd(g, pos);
      more := At(g, pos).kind == CHAR_ALT;
    }
    matches := found == (At(g, start).kind == CHAR);
  }

  lemma {:induction false} ScanEndIgnoresChar(g: Rules, p: Pos, c: nat, d: nat)
    requires WellFormed(g) && Valid(g, p) && At(g, p).kind in {CHAR, CHAR_NOT, CHAR_ALT}
    ensures ScanClass(g, p, c).1 == ScanClass(g, p, d).1
    decreases |g[p.rule]| - p.idx
  {
    var q := RangeEnd(g, p);
    if At(g, q).kind == CHAR_ALT { ScanEndIgnoresChar(g, q, c, d); }
  }

  // ---- alternates ----

  /** Where the alternate that `p` lies in ends. */
  function SeqEnd(g: Rules, p: Pos): (q: Pos)
    requires WellFormed(g) && Valid(g, p)
    ensures Valid(g, q) && q.rule == p.rule && q.idx >= p.idx && IsEnd(g, q)
    ensures forall i :: p.idx <= i < q.idx ==> !IsEnd(g, Pos(p.rule, i))
    decreases |g[p.rule]| - p.idx
  {
    assert ElementOk(g, p.rule, p.idx);
    if IsEnd(g, p) then p else SeqEnd(g, p.Next())
  }

  /** `p` starts an alternate of its rule. */
  predicate AltStart(g: Rules, p: Pos) {
    Valid(g, p) && (p.idx == 0 || g[p.rule][p.idx - 1].kind == ALT)
  }

  lemma AltStartIsItem(g: Rules, p: Pos)
    requires WellFormed(g) && AltStart(g, p)
    ensures IsItem(g, p)
  {
    assert ElementOk(g, p.rule, p.idx);
  }

  lemma AfterRef(g: Rules, p: Pos)
    requires WellFormed(g) && Valid(g, p) && At(g, p).kind == RULE_REF
    ensures IsItem(g, p.Next()) && At(g, p).value < |g|
  {
    assert ElementOk(g, p.rule, p.idx);
    assert ElementOk(g, p.rule, p.idx + 1);
  }

  // ---- what a position, a rule and a stack mean: the context-free language ----

  /** The rest of the alternate from `p` on derives `w` with at most `n` nested rule uses. */
  ghost predicate Derives(g: Rules, p: Pos, w: seq<nat>, n: nat)
    requires WellFormed(g) && IsItem(g, p)
    decreases n, |g[p.rule]| - p.idx
  {
    if IsEnd(g, p) then w == []
    else if IsChar(g, p) then
      w != [] && MatchChar(g, p, w[0]).0 && Derives(g, MatchChar(g, p, 0).1, w[1..], n)
    else
      AfterRef(g, p);
      n > 0 && exists a, k: nat :: Splits(g, p, w, a, k) && DerivesRef(g, p, w, n, a, k)
  }

  ghost predicate Splits(g: Rules, p: Pos, w: seq<nat>, a: Pos, k: nat)
    requires WellFormed(g) && IsItem(g, p) && At(g, p).kind == RULE_REF
  {
    k <= |w| && AltStart(g, a) && a.rule == At(g, p).value
  }

  ghost predicate DerivesRef(g: Rules, p: Pos, w: seq<nat>, n: nat, a: Pos, k: nat)
    requires WellFormed(g) && IsItem(g, p) && At(g, p).kind == RULE_REF && n > 0 && Splits(g, p, w, a, k)
    decreases n, |g[p.rule]| - p.idx, 0
  {
    AfterRef(g, p);
    AltStartIsItem(g, a);
    Derives(g, a, w[..k], n - 1) && Derives(g, p.Next(), w[k..], n)
  }

  ghost predicate Lang(g: Rules, p: Pos, w: seq<nat>)
    requires WellFormed(g) && IsItem(g, p)
  {
    exists n: nat :: Derives(g, p, w, n)
  }

  /** The language of a rule: what one of its alternates derives. */
  ghost predicate RuleLang(g: Rules, r: nat, w: seq<nat>)
    requires WellFormed(g)
  {
    exists a :: AltStart(g, a) && a.rule == r && IsItem(g, a) && Lang(g, a, w)
  }

  /** A stack derives what its elements derive, from the top down. */
  ghost predicate StackLang(g: Rules, s: Stack, w: seq<nat>)
    requires WellFormed(g) && StackOk(g, s)
    decreases |s|
  {
    if s == [] then w == []
    else exists k :: 0 <= k <= |w| && Lang(g, s[|s| - 1], w[..k]) && StackLang(g, s[..|s| - 1], w[k..])
  }

  ghost predicate AllOk(g: Rules, stacks: seq<Stack>) {
    forall i :: 0 <= i < |stacks| ==> StackOk(g, stacks[i])
  }

  /** A set of stacks accepts what one of them does. */
  ghost predicate SetLang(g: Rules, stacks: seq<Stack>, w: seq<nat>)
    requires WellFormed(g) && AllOk(g, stacks)
  {
    exists i :: 0 <= i < |stacks| && StackLang(g, stacks[i], w)
  }
}
