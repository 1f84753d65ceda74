/** Cutting the last segment of the results into pieces of a maximal text length. */
module WrapSegment {

  /** A token: special from `eot` on.  Its text is what the vocabulary has for the id. */
  datatype Token = Token(id: int, text: string, t0: int)

  datatype Segment = Segment(t0: int, t1: int, text: string, noSpeechProb: real, tokens: seq<Token>, speakerTurnNext: bool)

  datatype Limits = Limits(eot: int, maxLen: nat, splitOnWord: bool)

  predicate IsText(l: Limits, t: Token) { t.id < l.eot }

  predicate ShouldSplitOnWord(text: string, splitOnWord: bool) {
    !splitOnWord || (text != [] && text[0] == ' ')
  }

  /** The text of the tokens that are text. */
  function TextOf(l: Limits, ts: seq<Token>): string {
    if ts == [] then []
    else TextOf(l, ts[..|ts| - 1]) + if IsText(l, ts[|ts| - 1]) then ts[|ts| - 1].text else []
  }

  /** Token `i` starts a new piece when `acc` characters stand before it in the current one. */
  predicate Overflows(l: Limits, ts: seq<Token>, i: nat, acc: nat)
    requires i < |ts|
  {
    IsText(l, ts[i]) && acc + |ts[i].text| > l.maxLen && i > 0 && ShouldSplitOnWord(ts[i].text, l.splitOnWord)
  }

  /** The first cut from token `i` on; the number of tokens if there is none. */
  function Cut(l: Limits, ts: seq<Token>, i: nat): (k: nat)
    requires i <= |ts|
    ensures i <= k <= |ts|
    ensures k < |ts| ==> Overflows(l, ts, k, |TextOf(l, ts[..k])|)
    ensures forall j :: i <= j < k ==> !Overflows(l, ts, j, |TextOf(l, ts[..j])|)
    decreases |ts| - i
  {
    if i == |ts| || Overflows(l, ts, i, |TextOf(l, ts[..i])|) then i else Cut(l, ts, i + 1)
  }

  /** The piece before the cut, and the segment that is left. */
  function Piece(l: Limits, s: Segment, k: nat): Segment
    requires 0 < k < |s.tokens|
  {
    s.(text := TextOf(l, s.tokens[..k]), t1 := s.tokens[k].t0, tokens := s.tokens[..k], speakerTurnNext := false)
  }

  function Rest(s: Segment, k: nat): Segment
    requires 0 < k < |s.tokens|
  {
    Segment(s.tokens[k].t0, s.t1, "", 0.0, s.tokens[k..], s.speakerTurnNext)
  }

  function Wrapped(l: Limits, s: Segment): (r: seq<Segment>)
    ensures r != []
    decreases |s.tokens|
  {
    var k := Cut(l, s.tokens, 0);
    if k == |s.tokens| then [s.(text := TextOf(l, s.tokens))]
    else [Piece(l, s, k)] + Wrapped(l, Rest(s, k))
  }

  class Results {
    var resultAll: seq<Segment>

    constructor (segments: seq<Segment>)
      ensures resultAll == segments
    {
      resultAll := segments;
    }

    /** The last segment ends before token `i`; a new one takes the tokens from there on. */
    method StartPiece(l: Limits, segment: Segment, i: nat, text: string) returns (rest: Segment)
      requires resultAll != [] && resultAll[|resultAll| - 1] == segment && 0 < i < |segment.tokens|
      requires text == TextOf(l, segment.tokens[..i])
      modifies this
      ensures rest == Rest(segment, i)
      ensures resultAll == old(resultAll)[..|old(resultAll)| - 1] + [Piece(l, segment, i), rest]
    {
      var token := segment.tokens[i];
      var last := resultAll[|resultAll| - 1];
      last := last.(text := text, t1 := token.t0, tokens := last.tokens[..i], speakerTurnNext := false);
      resultAll := resultAll[|resultAll| - 1 := last];
      resultAll := resultAll + [Segment(token.t0, segment.t1, "", 0.0, segment.tokens[i..], segment.speakerTurnNext)];
      rest := resultAll[|resultAll| - 1];
    }

    /** Wraps the last segment; the scan starts over in each new piece. */
    method Wrap(l: Limits) returns (res: nat)
      requires resultAll != []
      modifies this
      ensures var n := |old(resultAll)| - 1;
              var pieces := Wrapped(l, old(resultAll)[n]);
              resultAll == old(resultAll)[..n] + pieces && res == |pieces|
    {
      hide Wrapped, TextOf, Cut;
      ghost var before, orig := resultAll[..|resultAll| - 1], resultAll[|resultAll| - 1];
      ghost var pieces: seq<Segment> := [];
      var segment := resultAll[|resultAll| - 1];
      res := 1;
      var acc := 0;
      var text := "";
      var i: int := 0;
      TextStart(l, segment.tokens);
      while i < |segment.tokens|
        invariant 0 <= i <= |segment.tokens| && res == |pieces| + 1
        invariant resultAll == before + pieces + [segment]
        invariant pieces + Wrapped(l, segment) == Wrapped(l, orig)
        invariant text == TextOf(l, segment.tokens[..i]) && acc == |text|
        invariant Cut(l, segment.tokens, 0) == Cut(l, segment.tokens, i)
        decreases |segment.tokens|, |segment.tokens| - i
      {
        TextNext(l, segment.tokens, i);
        CutNext(l, segment.tokens, i);
        var token := segment.tokens[i];
        if token.id >= l.eot {
          i := i + 1;
          continue;
        }
        var txt := token.text;
        var cur := |txt|;
        if acc + cur > l.maxLen && i > 0 && ShouldSplitOnWord(txt, l.splitOnWord) {
          WrappedCut(l, segment, i, pieces);
          ghost var was := segment;
          segment := StartPiece(l, segment, i, text);
          pieces := pieces + [Piece(l, was, i)];
          acc := 0;
          text := "";
          TextStart(l, segment.tokens);
          i := -1;
          res := res + 1;
        } else {
          acc := acc + cur;
          text := text + txt;
        }
        i := i + 1;
      }
      WrappedWhole(l, segment);
      assert segment.tokens[..i] == segment.tokens;
      resultAll := resultAll[|resultAll| - 1 := resultAll[|resultAll| - 1].(text := text)];
      assert resultAll == before + (pieces + Wrapped(l, segment));
    }
  }

  lemma TextStart(l: Limits, ts: seq<Token>)
    ensures TextOf(l, ts[..0]) == []
  {
  }

  lemma CutNext(l: Limits, ts: seq<Token>, i: nat)
    requires i < |ts|
    ensures Cut(l, ts, i) == if Overflows(l, ts, i, |TextOf(l, ts[..i])|) then i else Cut(l, ts, i + 1)
  {
  }

  lemma WrappedCut(l: Limits, s: Segment, i: nat, pieces: seq<Segment>)
    requires 0 < i < |s.tokens| && Cut(l, s.tokens, 0) == i
    ensures pieces + Wrapped(l, s) == pieces + [Piece(l, s, i)] + Wrapped(l, Rest(s, i))
  {
  }

  lemma WrappedWhole(l: Limits, s: Segment)
    ensures Cut(l, s.tokens, 0) == |s.tokens| ==> Wrapped(l, s) == [s.(text := TextOf(l, s.tokens))]
  {
  }

  lemma TextNext(l: Limits, ts: seq<Token>, i: nat)
    requires i < |ts|
    ensures TextOf(l, ts[..i + 1]) == TextOf(l, ts[..i]) + if IsText(l, ts[i]) then ts[i].text else []
  {
    assert ts[..i + 1][..i] == ts[..i];
  }

  // ---- what wrapping keeps ----

  function AllTokens(r: seq<Segment>): seq<Token> {
    if r == [] then [] else r[0].tokens + AllTokens(r[1..])
  }

  function AllText(r: seq<Segment>): string {
    if r == [] then [] else r[0].text + AllText(r[1..])
  }

  lemma {:induction false} TextConcat(l: Limits, a: seq<Token>, b: seq<Token>)
    ensures TextOf(l, a + b) == TextOf(l, a) + TextOf(l, b)
    decreases |b|
  {
    if b == [] {
      assert a + b == a;
    } else {
      assert (a + b)[..|a + b| - 1] == a + b[..|b| - 1];
      TextConcat(l, a, b[..|b| - 1]);
    }
  }

  /** Nothing is lost or repeated: the pieces' tokens and texts are those of the segment. */
  lemma {:induction false} WrapConserves(l: Limits, s: Segment)
    ensures AllTokens(Wrapped(l, s)) == s.tokens
    ensures AllText(Wrapped(l, s)) == TextOf(l, s.tokens)
    decreases |s.tokens|
  {
    var k := Cut(l, s.tokens, 0);
    var r := Wrapped(l, s);
    if k == |s.tokens| {
      assert r[1..] == [];
    } else {
      WrapConserves(l, Rest(s, k));
      assert s.tokens == s.tokens[..k] + s.tokens[k..];
      TextConcat(l, s.tokens[..k], s.tokens[k..]);
      assert r[1..] == Wrapped(l, Rest(s, k));
    }
  }

  /** The pieces share their boundary times, and those are token times. */
  ghost predicate Joined(r: seq<Segment>) {
    forall j :: 0 < j < |r| ==> r[j - 1].t1 == r[j].t0 && r[j].tokens != [] && r[j].t0 == r[j].tokens[0].t0
  }

  /** Only the last piece can be followed by another speaker. */
  ghost predicate TurnsKept(r: seq<Segment>, turn: bool) {
    r != [] && r[|r| - 1].speakerTurnNext == turn && forall j :: 0 <= j < |r| - 1 ==> !r[j].speakerTurnNext
  }

  lemma JoinedCons(x: Segment, r: seq<Segment>)
    requires Joined(r) && r != [] && x.t1 == r[0].t0 && r[0].tokens != [] && r[0].t0 == r[0].tokens[0].t0
    ensures Joined([x] + r)
  {
    var t := [x] + r;
    forall j | 0 < j < |t| ensures t[j - 1].t1 == t[j].t0 && t[j].tokens != [] && t[j].t0 == t[j].tokens[0].t0 {
      if j > 1 { assert t[j] == r[j - 1] && t[j - 1] == r[j - 1 - 1]; }
    }
  }

  lemma TurnsCons(x: Segment, r: seq<Segment>, turn: bool)
    requires TurnsKept(r, turn) && !x.speakerTurnNext
    ensures TurnsKept([x] + r, turn)
  {
  }

  /** Times and speaker turns: the first piece starts and the last one ends as the segment did. */
  lemma {:induction false} WrapKeepsTimes(l: Limits, s: Segment)
    ensures var r := Wrapped(l, s);
            && Joined(r) && r[0].t0 == s.t0 && r[|r| - 1].t1 == s.t1
            && TurnsKept(r, s.speakerTurnNext)
            && (s.tokens != [] ==> r[0].tokens != [] && r[0].tokens[0] == s.tokens[0])
    decreases |s.tokens|
  {
    var k := Cut(l, s.tokens, 0);
    if k < |s.tokens| {
      var rest := Wrapped(l, Rest(s, k));
      WrapKeepsTimes(l, Rest(s, k));
      JoinedCons(Piece(l, s, k), rest);
      TurnsCons(Piece(l, s, k), rest, s.speakerTurnNext);
    }
  }

  ghost predicate ProbabilityKept(r: seq<Segment>, prob: real) {
    forall j :: 0 <= j < |r| ==> r[j].noSpeechProb == prob
  }

  lemma ProbabilityCons(x: Segment, r: seq<Segment>, prob: real)
    ensures ProbabilityKept([x] + r, prob) <==> x.noSpeechProb == prob && ProbabilityKept(r, prob)
  {
    var t := [x] + r;
    if ProbabilityKept(t, prob) {
      assert t[0] == x;
      forall j | 0 <= j < |r| ensures r[j].noSpeechProb == prob { assert t[j + 1] == r[j]; }
    }
  }

  /** New pieces start with a probability of zero: the first piece keeps the segment's, all others
      have none. */
  lemma {:induction false} WrapResetsProbability(l: Limits, s: Segment)
    ensures Wrapped(l, s)[0].noSpeechProb == s.noSpeechProb
    ensures ProbabilityKept(Wrapped(l, s)[1..], 0.0)
    decreases |s.tokens|
  {
    var k := Cut(l, s.tokens, 0);
    if k < |s.tokens| {
      var rest := Wrapped(l, Rest(s, k));
      WrapResetsProbability(l, Rest(s, k));
      assert rest == [rest[0]] + rest[1..] && Wrapped(l, s)[1..] == rest;
      ProbabilityCons(rest[0], rest[1..], 0.0);
    }
  }

  /** The no-speech probability survives wrapping exactly when it is zero or nothing is cut. */
  lemma WrapKeepsProbabilityIff(l: Limits, s: Segment)
    ensures ProbabilityKept(Wrapped(l, s), s.noSpeechProb) <==> s.noSpeechProb == 0.0 || Cut(l, s.tokens, 0) == |s.tokens|
  {
    var r := Wrapped(l, s);
    WrapResetsProbability(l, s);
    assert r == [r[0]] + r[1..];
    ProbabilityCons(r[0], r[1..], s.noSpeechProb);
    if Cut(l, s.tokens, 0) < |s.tokens| {
      assert r[1..] != [] && r[1..][0].noSpeechProb == 0.0;
    }
  }

  /** For instance: two tokens of three characters, at most four to a piece. */
  lemma ProbabilityIsLost()
    ensures var l := Limits(10, 4, false);
            var s := Segment(0, 20, "abcdef", 0.5, [Token(1, "abc", 0), Token(2, "def", 10)], false);
            |Wrapped(l, s)| == 2 && !ProbabilityKept(Wrapped(l, s), 0.5)
  {
    var l := Limits(10, 4, false);
    var s := Segment(0, 20, "abcdef", 0.5, [Token(1, "abc", 0), Token(2, "def", 10)], false);
    TextStart(l, s.tokens);
    TextNext(l, s.tokens, 0);
    assert Cut(l, s.tokens, 0) == 1;
    WrapKeepsProbabilityIff(l, s);
    var t := Rest(s, 1);
    assert t.tokens == [Token(2, "def", 10)];
    assert Cut(l, t.tokens, 0) == 1;
    assert Wrapped(l, t) == [t.(text := TextOf(l, t.tokens))];
  }

  // ---- how long pieces get ----

  /** Within the limit, or a single text token, with which the piece starts. */
  ghost predicate ShortOrSingle(l: Limits, x: Segment) {
    && x.text == TextOf(l, x.tokens)
    && (|x.text| > l.maxLen ==> x.tokens != [] && x.text == x.tokens[0].text && IsText(l, x.tokens[0])
                                && forall j :: 0 < j < |x.tokens| ==> !IsText(l, x.tokens[j]))
  }

  /** Without splitting on words only, text grows beyond the limit only by the first token. */
  lemma {:induction false} ShortUpTo(l: Limits, ts: seq<Token>, k: nat)
    requires !l.splitOnWord && k <= |ts| && forall j :: 0 <= j < k ==> !Overflows(l, ts, j, |TextOf(l, ts[..j])|)
    ensures |TextOf(l, ts[..k])| > l.maxLen ==>
              k > 0 && IsText(l, ts[0]) && TextOf(l, ts[..k]) == ts[0].text && forall j :: 0 < j < k ==> !IsText(l, ts[j])
    decreases k
  {
    if k > 0 {
      ShortUpTo(l, ts, k - 1);
      TextNext(l, ts, k - 1);
      assert !Overflows(l, ts, k - 1, |TextOf(l, ts[..k - 1])|);
      if k == 1 { TextStart(l, ts); }
    }
  }

  /** Without splitting on words only, every piece is within the limit or a single text token. */
  lemma {:induction false} PiecesAreShort(l: Limits, s: Segment)
    requires !l.splitOnWord
    ensures forall j :: 0 <= j < |Wrapped(l, s)| ==> ShortOrSingle(l, Wrapped(l, s)[j])
    decreases |s.tokens|
  {
    var k := Cut(l, s.tokens, 0);
    ShortUpTo(l, s.tokens, k);
    if k == |s.tokens| {
      assert s.tokens[..k] == s.tokens;
    } else {
      PiecesAreShort(l, Rest(s, k));
      assert s.tokens[..k] == Piece(l, s, k).tokens;
    }
  }

  /** Splitting on words only, every new piece begins with a space. */
  lemma {:induction false} PiecesStartWords(l: Limits, s: Segment)
    requires l.splitOnWord
    ensures var r := Wrapped(l, s);
            forall j :: 0 < j < |r| ==> r[j].tokens != [] && IsText(l, r[j].tokens[0])
                                        && r[j].tokens[0].text != [] && r[j].tokens[0].text[0] == ' '
    decreases |s.tokens|
  {
    var k := Cut(l, s.tokens, 0);
    if k < |s.tokens| {
      PiecesStartWords(l, Rest(s, k));
      WrapKeepsTimes(l, Rest(s, k));
      var r := Wrapped(l, s);
      assert r[1..] == Wrapped(l, Rest(s, k));
    }
  }
}
