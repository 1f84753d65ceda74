/** Which grammars the stepping theorems are about: those in which no rule reaches itself over
    leftmost references.  They are the ones for which the evidence asked for exists. */
module GrammarRank {
  import opened Grammar
  import opened GrammarLang
  import opened GrammarStep

  /** The rules that derive the empty word. */
  ghost function NullRules(g: Rules): set<nat>
    requires WellFormed(g)
  {
    set r: nat | r < |g| && RuleLang(g, r, [])
  }

  /** An alternate of rule `r` reaches a reference to `q` over rules that derive the empty word. */
  ghost predicate Edge(g: Rules, nullable: set<nat>, r: nat, q: nat) {
    exists p :: RefTo(g, nullable, p, r, q)
  }

  predicate RefTo(g: Rules, nullable: set<nat>, p: Pos, r: nat, q: nat) {
    Valid(g, p) && At(g, p) == Element(RULE_REF, q) && p.rule == r && q < |g| && LeftMost(g, nullable, p)
  }

  ghost predicate Path(g: Rules, nullable: set<nat>, path: seq<nat>) {
    |path| >= 2 && forall i :: 0 <= i < |path| - 1 ==> EdgeAt(g, nullable, path, i)
  }

  ghost predicate EdgeAt(g: Rules, nullable: set<nat>, path: seq<nat>, i: nat)
    requires i + 1 < |path|
  {
    Edge(g, nullable, path[i], path[i + 1])
  }

  ghost predicate PathFrom(g: Rules, nullable: set<nat>, path: seq<nat>, r: nat, q: nat) {
    Path(g, nullable, path) && path[0] == r && path[|path| - 1] == q
  }

  ghost predicate Reaches(g: Rules, nullable: set<nat>, r: nat, q: nat) {
    exists path :: PathFrom(g, nullable, path, r, q)
  }

  ghost predicate NoLeftRecursion(g: Rules)
    requires WellFormed(g)
  {
    forall r: nat :: r < |g| ==> !Reaches(g, NullRules(g), r, r)
  }

  // ---- paths ----

  lemma EdgeReaches(g: Rules, nullable: set<nat>, r: nat, q: nat)
    requires Edge(g, nullable, r, q)
    ensures Reaches(g, nullable, r, q)
  {
    var path := [r, q];
    assert EdgeAt(g, nullable, path, 0);
    assert PathFrom(g, nullable, path, r, q);
  }

  lemma EdgeThenReaches(g: Rules, nullable: set<nat>, r: nat, q: nat, s: nat)
    requires Edge(g, nullable, r, q) && Reaches(g, nullable, q, s)
    ensures Reaches(g, nullable, r, s)
  {
    hide Edge;
    var path :| PathFrom(g, nullable, path, q, s);
    var longer := [r] + path;
    forall i | 0 <= i < |longer| - 1 ensures EdgeAt(g, nullable, longer, i) {
      if i > 0 { assert EdgeAt(g, nullable, path, i - 1); }
    }
    assert PathFrom(g, nullable, longer, r, s);
  }

  // ---- evidence from no left recursion: the number of rules reached is a rank ----

  ghost function Reached(g: Rules, nullable: set<nat>, r: nat): set<nat> {
    set q: nat | q < |g| && Reaches(g, nullable, r, q)
  }

  lemma FewerReached(g: Rules, nullable: set<nat>, r: nat, q: nat)
    requires Edge(g, nullable, r, q) && q < |g| && !Reaches(g, nullable, q, q)
    ensures |Reached(g, nullable, q)| < |Reached(g, nullable, r)|
  {
    hide Edge, Reaches;
    EdgeReaches(g, nullable, r, q);
    var few, many := Reached(g, nullable, q), Reached(g, nullable, r);
    forall s | s in few ensures s in many {
      EdgeThenReaches(g, nullable, r, q, s);
    }
    assert q in many - few;
    assert many == few + (many - few);
  }

  /** A run of references to rules that derive the empty word derives it. */
  lemma {:induction false} NullSeqDerives(g: Rules, p: Pos)
    requires WellFormed(g) && IsItem(g, p) && NullSeq(g, NullRules(g), p)
    ensures Lang(g, p, [])
    decreases |g[p.rule]| - p.idx
  {
    hide Lang;
    assert ElementOk(g, p.rule, p.idx);
    if IsEnd(g, p) {
      LangEnd(g, p, []);
    } else {
      AfterRef(g, p);
      NullSeqDerives(g, p.Next());
      var a :| AltStart(g, a) && a.rule == At(g, p).value && IsItem(g, a) && Lang(g, a, []);
      LangRefBack(g, p, [], a, 0);
    }
  }

  ghost function EvidenceOf(g: Rules): (ev: Evidence)
    requires WellFormed(g)
    ensures |ev.rank| == |g|
  {
    Evidence(NullRules(g), seq(|g|, r requires 0 <= r < |g| => |Reached(g, NullRules(g), r)|))
  }

  lemma EvidenceIsRanked(g: Rules)
    requires WellFormed(g) && NoLeftRecursion(g)
    ensures Ranked(g, EvidenceOf(g))
  {
    hide Reaches, Edge, Reached, LeftMost, NullSeq;
    var n := NullRules(g);
    forall a | AltStart(g, a) && NullSeq(g, n, a) ensures a.rule in n {
      AltStartIsItem(g, a);
      NullSeqDerives(g, a);
      assert RuleLang(g, a.rule, []);
    }
    forall p | Valid(g, p) && At(g, p).kind == RULE_REF && LeftMost(g, n, p) && At(g, p).value < |g|
      ensures EvidenceOf(g).rank[At(g, p).value] < EvidenceOf(g).rank[p.rule]
    {
      RefIsEdge(g, n, p);
      FewerReached(g, n, p.rule, At(g, p).value);
    }
  }

  lemma RefIsEdge(g: Rules, nullable: set<nat>, p: Pos)
    requires Valid(g, p) && At(g, p).kind == RULE_REF && LeftMost(g, nullable, p) && At(g, p).value < |g|
    ensures Edge(g, nullable, p.rule, At(g, p).value)
  {
    assert RefTo(g, nullable, p, p.rule, At(g, p).value);
  }

  // ---- no left recursion from evidence ----

  /** What derives the empty word is a run of references the evidence calls nullable. */
  lemma {:induction false} DerivesNull(g: Rules, ev: Evidence, p: Pos, n: nat)
    requires WellFormed(g) && Ranked(g, ev) && IsItem(g, p) && Derives(g, p, [], n)
    ensures NullSeq(g, ev.nullable, p)
    decreases n, |g[p.rule]| - p.idx
  {
    assert ElementOk(g, p.rule, p.idx);
    if !IsEnd(g, p) {
      AfterRef(g, p);
      var a, k: nat :| Splits(g, p, [], a, k) && DerivesRef(g, p, [], n, a, k);
      AltStartIsItem(g, a);
      DerivesNull(g, ev, a, n - 1);
      DerivesNull(g, ev, p.Next(), n);
    }
  }

  lemma NullRulesIn(g: Rules, ev: Evidence)
    requires WellFormed(g) && Ranked(g, ev)
    ensures NullRules(g) <= ev.nullable
  {
    forall r | r in NullRules(g) ensures r in ev.nullable {
      var a :| AltStart(g, a) && a.rule == r && IsItem(g, a) && Lang(g, a, []);
      var n: nat :| Derives(g, a, [], n);
      DerivesNull(g, ev, a, n);
    }
  }

  lemma {:induction false} LeftMostMore(g: Rules, few: set<nat>, many: set<nat>, p: Pos)
    requires Valid(g, p) && few <= many && LeftMost(g, few, p)
    ensures LeftMost(g, many, p)
    decreases p.idx
  {
    if !AltStart(g, p) { LeftMostMore(g, few, many, Pos(p.rule, p.idx - 1)); }
  }

  lemma EdgeGoesDown(g: Rules, ev: Evidence, r: nat, q: nat)
    requires WellFormed(g) && Ranked(g, ev) && Edge(g, NullRules(g), r, q)
    ensures r < |g| && q < |g| && ev.rank[q] < ev.rank[r]
  {
    var p :| RefTo(g, NullRules(g), p, r, q);
    NullRulesIn(g, ev);
    LeftMostMore(g, NullRules(g), ev.nullable, p);
  }

  lemma {:induction false} PathGoesDown(g: Rules, ev: Evidence, path: seq<nat>, i: nat)
    requires WellFormed(g) && Ranked(g, ev) && Path(g, NullRules(g), path) && 0 < i < |path|
    ensures path[0] < |g| && path[i] < |g| && ev.rank[path[i]] < ev.rank[path[0]]
  {
    hide Edge, Ranked;
    assert EdgeAt(g, NullRules(g), path, i - 1);
    EdgeGoesDown(g, ev, path[i - 1], path[i]);
    if i > 1 { PathGoesDown(g, ev, path, i - 1); }
  }

  /** The evidence exists exactly for the grammars without left recursion. */
  lemma RankedIffNoLeftRecursion(g: Rules)
    requires WellFormed(g)
    ensures (exists ev :: Ranked(g, ev)) <==> NoLeftRecursion(g)
  {
    hide Ranked, Path;
    if ev :| Ranked(g, ev) {
      forall r: nat | r < |g| ensures !Reaches(g, NullRules(g), r, r) {
        if path :| PathFrom(g, NullRules(g), path, r, r) {
          PathEnds(g, path);
          PathGoesDown(g, ev, path, |path| - 1);
        }
      }
    }
    if NoLeftRecursion(g) { EvidenceIsRanked(g); }
  }

  lemma PathEnds(g: Rules, path: seq<nat>)
    requires WellFormed(g) && Path(g, NullRules(g), path)
    ensures |path| >= 2
  {
  }

  /** So every grammar without left recursion can be stepped, and stepping decides its language. */
  lemma GrammarDecidesAll(g: Rules, start: nat, u: seq<nat>, w: seq<nat>)
    requires WellFormed(g) && NoLeftRecursion(g) && start < |g|
    ensures Ranked(g, EvidenceOf(g))
    ensures var stacks := AcceptAll(g, EvidenceOf(g), Init(g, EvidenceOf(g), start), u);
            && (SetLang(g, stacks, w) <==> RuleLang(g, start, u + w))
            && ([] in stacks <==> RuleLang(g, start, u))
  {
    hide NoLeftRecursion, Ranked, EvidenceOf;
    EvidenceIsRanked(g);
    GrammarDecides(g, EvidenceOf(g), start, u, w);
  }
}
