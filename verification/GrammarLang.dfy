/** Laws of the language that grammar positions and stacks stand for. */
module GrammarLang {
  import opened Grammar

  lemma {:induction false} DerivesMore(g: Rules, p: Pos, w: seq<nat>, n: nat, m: nat)
    requires WellFormed(g) && IsItem(g, p) && n <= m && Derives(g, p, w, n)
    ensures Derives(g, p, w, m)
    decreases n, |g[p.rule]| - p.idx
  {
    if IsChar(g, p) {
      DerivesMore(g, MatchChar(g, p, 0).1, w[1..], n, m);
    } else if !IsEnd(g, p) {
      AfterRef(g, p);
      var a, k: nat :| Splits(g, p, w, a, k) && DerivesRef(g, p, w, n, a, k);
      AltStartIsItem(g, a);
      DerivesMore(g, a, w[..k], n - 1, m - 1);
      DerivesMore(g, p.Next(), w[k..], n, m);
      assert DerivesRef(g, p, w, m, a, k);
    }
  }

  lemma LangEnd(g: Rules, p: Pos, w: seq<nat>)
    requires WellFormed(g) && IsItem(g, p) && IsEnd(g, p)
    ensures Lang(g, p, w) <==> w == []
  {
    assert Derives(g, p, w, 0) <==> w == [];
  }

  lemma LangChar(g: Rules, p: Pos, w: seq<nat>)
    requires WellFormed(g) && IsItem(g, p) && IsChar(g, p)
    ensures Lang(g, p, w) <==> w != [] && MatchChar(g, p, w[0]).0 && Lang(g, MatchChar(g, p, 0).1, w[1..])
  {
    if Lang(g, p, w) {
      var n: nat :| Derives(g, p, w, n);
      assert Derives(g, MatchChar(g, p, 0).1, w[1..], n);
    }
    if w != [] && MatchChar(g, p, w[0]).0 && Lang(g, MatchChar(g, p, 0).1, w[1..]) {
      var n: nat :| Derives(g, MatchChar(g, p, 0).1, w[1..], n);
      assert Derives(g, p, w, n);
    }
  }

  /** A reference derives what an alternate of the rule derives, followed by the rest. */
  ghost predicate LangVia(g: Rules, p: Pos, w: seq<nat>, a: Pos, k: nat)
    requires WellFormed(g) && IsItem(g, p) && At(g, p).kind == RULE_REF && Splits(g, p, w, a, k)
  {
    AfterRef(g, p);
    AltStartIsItem(g, a);
    Lang(g, a, w[..k]) && Lang(g, p.Next(), w[k..])
  }

  lemma LangRef(g: Rules, p: Pos, w: seq<nat>)
    requires WellFormed(g) && IsItem(g, p) && At(g, p).kind == RULE_REF
    ensures Lang(g, p, w) <==> exists a, k: nat :: Splits(g, p, w, a, k) && LangVia(g, p, w, a, k)
  {
    if Lang(g, p, w) {
      var a, k := LangRefOnly(g, p, w);
    }
    if a, k: nat :| Splits(g, p, w, a, k) && LangVia(g, p, w, a, k) {
      LangRefBack(g, p, w, a, k);
    }
  }

  lemma LangRefOnly(g: Rules, p: Pos, w: seq<nat>) returns (a: Pos, k: nat)
    requires WellFormed(g) && IsItem(g, p) && At(g, p).kind == RULE_REF && Lang(g, p, w)
    ensures Splits(g, p, w, a, k) && LangVia(g, p, w, a, k)
  {
    AfterRef(g, p);
    var n: nat :| Derives(g, p, w, n);
    a, k :| Splits(g, p, w, a, k) && DerivesRef(g, p, w, n, a, k);
    AltStartIsItem(g, a);
    assert Derives(g, a, w[..k], n - 1) && Derives(g, p.Next(), w[k..], n);
  }

  lemma LangRefBack(g: Rules, p: Pos, w: seq<nat>, a: Pos, k: nat)
    requires WellFormed(g) && IsItem(g, p) && At(g, p).kind == RULE_REF
    requires Splits(g, p, w, a, k) && LangVia(g, p, w, a, k)
    ensures Lang(g, p, w)
  {
    AfterRef(g, p);
    AltStartIsItem(g, a);
    var n: nat :| Derives(g, a, w[..k], n);
    var m: nat :| Derives(g, p.Next(), w[k..], m);
    var t := n + m + 1;
    DerivesMore(g, a, w[..k], n, t - 1);
    DerivesMore(g, p.Next(), w[k..], m, t);
    assert DerivesRef(g, p, w, t, a, k);
    assert Derives(g, p, w, t);
  }

  /** Put a position on a stack unless its alternate is over. */
  function Push(g: Rules, s: Stack, p: Pos): (t: Stack)
    requires WellFormed(g) && StackOk(g, s) && IsItem(g, p)
    ensures StackOk(g, t)
  {
    if IsEnd(g, p) then s else s + [p]
  }

  ghost predicate Cut(g: Rules, s: Stack, p: Pos, w: seq<nat>, k: nat)
    requires WellFormed(g) && StackOk(g, s) && IsItem(g, p)
  {
    k <= |w| && Lang(g, p, w[..k]) && StackLang(g, s, w[k..])
  }

  lemma PushLang(g: Rules, s: Stack, p: Pos, w: seq<nat>)
    requires WellFormed(g) && StackOk(g, s) && IsItem(g, p)
    ensures StackLang(g, Push(g, s, p), w) <==> exists k: nat :: Cut(g, s, p, w, k)
  {
    if IsEnd(g, p) {
      if StackLang(g, s, w) {
        LangEnd(g, p, w[..0]);
        assert w[0..] == w;
        assert Cut(g, s, p, w, 0);
      }
      if k: nat :| Cut(g, s, p, w, k) {
        LangEnd(g, p, w[..k]);
        assert w[k..] == w;
      }
    } else {
      var t := s + [p];
      assert t[..|t| - 1] == s && t[|t| - 1] == p;
      if StackLang(g, t, w) {
        var k :| 0 <= k <= |w| && Lang(g, t[|t| - 1], w[..k]) && StackLang(g, t[..|t| - 1], w[k..]);
        assert Cut(g, s, p, w, k);
      }
      if k: nat :| Cut(g, s, p, w, k) {
        assert Lang(g, t[|t| - 1], w[..k]) && StackLang(g, t[..|t| - 1], w[k..]);
      }
    }
  }

  /** The stack with its reference on top replaced by what follows it and alternate `a`. */
  function Expand(g: Rules, s: Stack, a: Pos): (t: Stack)
    requires WellFormed(g) && StackOk(g, s) && s != [] && At(g, s[|s| - 1]).kind == RULE_REF
    requires AltStart(g, a)
    ensures StackOk(g, t)
  {
    AfterRef(g, s[|s| - 1]);
    AltStartIsItem(g, a);
    Push(g, Push(g, s[..|s| - 1], s[|s| - 1].Next()), a)
  }

  /** A stack with a reference on top derives exactly what its expansions derive. */
  lemma ExpandLang(g: Rules, s: Stack, w: seq<nat>)
    requires WellFormed(g) && StackOk(g, s) && s != [] && At(g, s[|s| - 1]).kind == RULE_REF
    ensures StackLang(g, s, w) <==>
            exists a :: AltStart(g, a) && a.rule == At(g, s[|s| - 1]).value && StackLang(g, Expand(g, s, a), w)
  {
    if StackLang(g, s, w) {
      var a := ExpandOnly(g, s, w);
    }
    if a :| AltStart(g, a) && a.rule == At(g, s[|s| - 1]).value && StackLang(g, Expand(g, s, a), w) {
      ExpandBack(g, s, w, a);
    }
  }

  lemma ExpandOnly(g: Rules, s: Stack, w: seq<nat>) returns (a: Pos)
    requires WellFormed(g) && StackOk(g, s) && s != [] && At(g, s[|s| - 1]).kind == RULE_REF
    requires StackLang(g, s, w)
    ensures AltStart(g, a) && a.rule == At(g, s[|s| - 1]).value && StackLang(g, Expand(g, s, a), w)
  {
    var p, rest := s[|s| - 1], s[..|s| - 1];
    AfterRef(g, p);
    var m :| 0 <= m <= |w| && Lang(g, s[|s| - 1], w[..m]) && StackLang(g, s[..|s| - 1], w[m..]);
    hide StackLang, Lang;
    var k;
    a, k := CutAtRef(g, p, rest, w, m);
    AltStartIsItem(g, a);
    PushLang(g, rest, p.Next(), w[k..]);
    var mid := Push(g, rest, p.Next());
    assert Cut(g, mid, a, w, k);
    PushLang(g, mid, a, w);
  }

  /** A word of a reference on top of `rest`, cut after what the chosen alternate reads. */
  lemma CutAtRef(g: Rules, p: Pos, rest: Stack, w: seq<nat>, m: nat) returns (a: Pos, k: nat)
    requires WellFormed(g) && IsItem(g, p) && At(g, p).kind == RULE_REF && StackOk(g, rest)
    requires m <= |w| && Lang(g, p, w[..m]) && StackLang(g, rest, w[m..])
    ensures AltStart(g, a) && a.rule == At(g, p).value && IsItem(g, a) && IsItem(g, p.Next())
    ensures k <= m && Lang(g, a, w[..k]) && Cut(g, rest, p.Next(), w[k..], m - k)
  {
    hide StackLang, Lang;
    AfterRef(g, p);
    LangRef(g, p, w[..m]);
    a, k :| Splits(g, p, w[..m], a, k) && LangVia(g, p, w[..m], a, k);
    AltStartIsItem(g, a);
    SliceSlice(w, k, m);
  }

  lemma SliceSlice(w: seq<nat>, k: nat, m: nat)
    requires k <= m <= |w|
    ensures w[..m][..k] == w[..k] && w[..m][k..] == w[k..][..m - k] && w[k..][m - k..] == w[m..]
  {
  }

  lemma ExpandBack(g: Rules, s: Stack, w: seq<nat>, a: Pos)
    requires WellFormed(g) && StackOk(g, s) && s != [] && At(g, s[|s| - 1]).kind == RULE_REF
    requires AltStart(g, a) && a.rule == At(g, s[|s| - 1]).value && StackLang(g, Expand(g, s, a), w)
    ensures StackLang(g, s, w)
  {
    var p, rest := s[|s| - 1], s[..|s| - 1];
    AfterRef(g, p);
    AltStartIsItem(g, a);
    var mid := Push(g, rest, p.Next());
    PushLang(g, mid, a, w);
    var k: nat :| Cut(g, mid, a, w, k);
    var v := w[k..];
    PushLang(g, rest, p.Next(), v);
    var j: nat :| Cut(g, rest, p.Next(), v, j);
    RefCut(g, s, w, a, k, j);
  }

  lemma RefCut(g: Rules, s: Stack, w: seq<nat>, a: Pos, k: nat, j: nat)
    requires WellFormed(g) && StackOk(g, s) && s != [] && At(g, s[|s| - 1]).kind == RULE_REF
    requires AltStart(g, a) && a.rule == At(g, s[|s| - 1]).value && IsItem(g, a)
    requires k + j <= |w| && Lang(g, a, w[..k]) && IsItem(g, s[|s| - 1].Next())
    requires Cut(g, s[..|s| - 1], s[|s| - 1].Next(), w[k..], j)
    ensures StackLang(g, s, w)
  {
    var p := s[|s| - 1];
    var m := k + j;
    var u := w[..m];
    assert u[..k] == w[..k] && u[k..] == w[k..][..j] && w[m..] == w[k..][j..];
    assert Splits(g, p, u, a, k) && LangVia(g, p, u, a, k);
    LangRef(g, p, u);
    assert Lang(g, p, w[..m]);
  }

  /** Reading one code point off a stack with a character class on top. */
  lemma CharLang(g: Rules, s: Stack, w: seq<nat>)
    requires WellFormed(g) && StackOk(g, s) && s != [] && IsChar(g, s[|s| - 1])
    ensures StackLang(g, s, w) <==>
            w != [] && MatchChar(g, s[|s| - 1], w[0]).0
            && StackLang(g, Push(g, s[..|s| - 1], MatchChar(g, s[|s| - 1], 0).1), w[1..])
  {
    var p, rest := s[|s| - 1], s[..|s| - 1];
    var q := MatchChar(g, p, 0).1;
    if StackLang(g, s, w) {
      var k := CharRead(g, s, w);
      PushLang(g, rest, q, w[1..]);
    }
    if w != [] && MatchChar(g, p, w[0]).0 && StackLang(g, Push(g, rest, q), w[1..]) {
      PushLang(g, rest, q, w[1..]);
      var k: nat :| Cut(g, rest, q, w[1..], k);
      CharUnread(g, s, w, k);
    }
  }

  lemma CharRead(g: Rules, s: Stack, w: seq<nat>) returns (k: nat)
    requires WellFormed(g) && StackOk(g, s) && s != [] && IsChar(g, s[|s| - 1]) && StackLang(g, s, w)
    ensures w != [] && MatchChar(g, s[|s| - 1], w[0]).0
    ensures Cut(g, s[..|s| - 1], MatchChar(g, s[|s| - 1], 0).1, w[1..], k)
  {
    var m :| 0 <= m <= |w| && Lang(g, s[|s| - 1], w[..m]) && StackLang(g, s[..|s| - 1], w[m..]);
    LangChar(g, s[|s| - 1], w[..m]);
    k := m - 1;
    assert w[..m][1..] == w[1..][..k] && w[m..] == w[1..][k..];
  }

  lemma CharUnread(g: Rules, s: Stack, w: seq<nat>, k: nat)
    requires WellFormed(g) && StackOk(g, s) && s != [] && IsChar(g, s[|s| - 1])
    requires w != [] && MatchChar(g, s[|s| - 1], w[0]).0
    requires Cut(g, s[..|s| - 1], MatchChar(g, s[|s| - 1], 0).1, w[1..], k)
    ensures StackLang(g, s, w)
  {
    assert w[..k + 1][1..] == w[1..][..k] && w[k + 1..] == w[1..][k..];
    LangChar(g, s[|s| - 1], w[..k + 1]);
    assert Lang(g, s[|s| - 1], w[..k + 1]) && StackLang(g, s[..|s| - 1], w[k + 1..]);
  }
}
