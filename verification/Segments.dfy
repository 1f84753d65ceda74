/** Cutting the tokens of a window into result segments at its timestamps. */
module Segments {
  import opened Timestamps

  /** A token, the best timestamp at its place, and the text the vocabulary has for it. */
  datatype Token = Token(id: int, tid: int, text: string)

  datatype Segment = Segment(t0: int, t1: int, text: string, tokens: seq<Token>, turnNext: bool)

  /** The window: where it starts, how far it moves on, and what to show. */
  datatype Setting = Setting(v: Vocab, seek: int, seekDelta: int, single: bool, printSpecial: bool, tdrz: bool)

  predicate Shown(e: Setting, t: Token) { e.printSpecial || t.id < e.v.eot }

  function TextOf(e: Setting, ts: seq<Token>): string {
    if ts == [] then [] else TextOf(e, ts[..|ts| - 1]) + if Shown(e, ts[|ts| - 1]) then ts[|ts| - 1].text else []
  }

  predicate TurnIn(e: Setting, ts: seq<Token>) {
    e.tdrz && exists k :: 0 <= k < |ts| && ts[k].id == e.v.solm
  }

  /** A timestamp ends a segment, but for the one of zero. */
  predicate Closes(e: Setting, t: Token) { t.id > e.v.beg && !e.single }

  function TimeAt(e: Setting, t: Token): int { e.seek + 2 * (t.tid - e.v.beg) }

  /** The first token that ends a segment. */
  function Closer(e: Setting, ts: seq<Token>): (k: nat)
    ensures k <= |ts|
    ensures k < |ts| ==> Closes(e, ts[k])
    ensures forall j :: 0 <= j < k ==> !Closes(e, ts[j])
  {
    if ts == [] || Closes(e, ts[0]) then 0 else 1 + Closer(e, ts[1..])
  }

  /** The number of timestamps above zero that `ts` begins with. */
  function Stamps(e: Setting, ts: seq<Token>): (n: nat)
    ensures n <= |ts|
    ensures ts != [] && ts[0].id > e.v.beg ==> n > 0
  {
    if ts == [] || ts[0].id <= e.v.beg then 0 else 1 + Stamps(e, ts[1..])
  }

  /** A segment without text is left out. */
  function Shows(e: Setting, t0: int, t1: int, ts: seq<Token>): seq<Segment> {
    if TextOf(e, ts) == [] then [] else [Segment(t0, t1, TextOf(e, ts), ts, TurnIn(e, ts))]
  }

  /** The segments of the tokens left, the first of which starts at `t0`: only the first timestamp of
      a row belongs to a segment, and the next one starts with its time. */
  function Emitted(e: Setting, ts: seq<Token>, t0: int): seq<Segment>
    decreases |ts|
  {
    var k := Closer(e, ts);
    if k == |ts| then Shows(e, t0, e.seek + e.seekDelta, ts)
    else Shows(e, t0, TimeAt(e, ts[k]), ts[..k + 1]) + Emitted(e, ts[k + Stamps(e, ts[k..])..], TimeAt(e, ts[k]))
  }

  function AllEmitted(e: Setting, ts: seq<Token>): seq<Segment> {
    if ts == [] then [] else Emitted(e, ts, TimeAt(e, ts[0]))
  }

  // ---- the loop ----

  method Emit(e: Setting, tokens: seq<Token>) returns (segments: seq<Segment>)
    ensures segments == AllEmitted(e, tokens)
  {
    hide Emitted, TextOf, TurnIn, Stamps;
    segments := [];
    if tokens == [] {
      return;
    }
    var i0 := 0;
    var t0 := e.seek + 2 * (tokens[0].tid - e.v.beg);
    var text, turnNext := "", false;
    var i := 0;
    assert tokens[0..] == tokens && tokens[0..0] == [];
    NoText(e);
    while i < |tokens|
      invariant 0 <= i0 <= i <= |tokens|
      invariant segments + Emitted(e, tokens[i0..], t0) == AllEmitted(e, tokens)
      invariant text == TextOf(e, tokens[i0..i]) && turnNext == TurnIn(e, tokens[i0..i])
      invariant forall j :: i0 <= j < i ==> !Closes(e, tokens[j])
    {
      if e.printSpecial || tokens[i].id < e.v.eot {
        text := text + tokens[i].text;
      }
      if e.tdrz && tokens[i].id == e.v.solm {
        turnNext := true;
      }
      OneMore(e, tokens, i0, i);
      if tokens[i].id > e.v.beg && !e.single {
        var t1 := e.seek + 2 * (tokens[i].tid - e.v.beg);
        ghost var was := segments;
        assert was + [] == was;
        if text != "" {
          segments := segments + [Segment(t0, t1, text, tokens[i0..i + 1], turnNext)];
        }
        text := "";
        ghost var k := i;
        i := SkipStamps(e, tokens, i);
        Closed(e, tokens, was, segments, i0, k, i, t0);
        i := i - 1;
        t0 := t1;
        i0 := i + 1;
        turnNext := false;
        assert tokens[i0..i + 1] == [];
        NoText(e);
      }
      i := i + 1;
    }
    LastEmitted(e, tokens, i0, t0);
    if text != "" {
      segments := segments + [Segment(t0, e.seek + e.seekDelta, text, tokens[i0..], turnNext)];
    }
  }

  method SkipStamps(e: Setting, tokens: seq<Token>, from: nat) returns (i: nat)
    requires from < |tokens| && tokens[from].id > e.v.beg
    ensures from < i <= |tokens| && i == from + Stamps(e, tokens[from..])
  {
    i := from;
    while i < |tokens| && tokens[i].id > e.v.beg
      invariant from <= i <= |tokens| && from + Stamps(e, tokens[from..]) == i + Stamps(e, tokens[i..])
    {
      assert tokens[i..][1..] == tokens[i + 1..];
      i := i + 1;
    }
  }

  lemma NoText(e: Setting)
    ensures TextOf(e, []) == [] && !TurnIn(e, [])
  {
  }

  lemma OneMore(e: Setting, ts: seq<Token>, i0: nat, i: nat)
    requires i0 <= i < |ts|
    ensures TextOf(e, ts[i0..i + 1]) == if Shown(e, ts[i]) then TextOf(e, ts[i0..i]) + ts[i].text else TextOf(e, ts[i0..i])
    ensures TurnIn(e, ts[i0..i + 1]) <==> TurnIn(e, ts[i0..i]) || (e.tdrz && ts[i].id == e.v.solm)
  {
    var s := ts[i0..i + 1];
    assert s[..|s| - 1] == ts[i0..i] && s[|s| - 1] == ts[i];
    if k :| 0 <= k < |ts[i0..i]| && ts[i0..i][k].id == e.v.solm { assert s[k].id == e.v.solm; }
  }

  lemma {:induction false} CloserIs(e: Setting, ts: seq<Token>, k: nat)
    requires k <= |ts| && (k < |ts| ==> Closes(e, ts[k])) && forall j :: 0 <= j < k ==> !Closes(e, ts[j])
    ensures Closer(e, ts) == k
  {
    if k > 0 { CloserIs(e, ts[1..], k - 1); }
  }

  lemma SplitAt(e: Setting, s: seq<Token>, t0: int)
    requires Closer(e, s) < |s|
    ensures var k := Closer(e, s);
            Emitted(e, s, t0) ==
              Shows(e, t0, TimeAt(e, s[k]), s[..k + 1]) + Emitted(e, s[k + Stamps(e, s[k..])..], TimeAt(e, s[k]))
  {
    hide Closer, Stamps, Shows;
  }

  /** A segment ends at token `k`, and its row of timestamps before token `m`. */
  lemma EmittedAt(e: Setting, ts: seq<Token>, i0: nat, k: nat, m: nat, t0: int)
    requires i0 <= k < m <= |ts| && Closes(e, ts[k]) && forall j :: i0 <= j < k ==> !Closes(e, ts[j])
    requires m == k + Stamps(e, ts[k..])
    ensures Emitted(e, ts[i0..], t0) ==
            Shows(e, t0, TimeAt(e, ts[k]), ts[i0..k + 1]) + Emitted(e, ts[m..], TimeAt(e, ts[k]))
  {
    hide Emitted, TextOf, Shows, Stamps, Closer;
    var s := ts[i0..];
    CloserIs(e, s, k - i0);
    SplitAt(e, s, t0);
    assert s[..k - i0 + 1] == ts[i0..k + 1] && s[k - i0..] == ts[k..] && s[m - i0..] == ts[m..];
  }

  /** The segments once the one that ends at token `k` is among them. */
  lemma Closed(e: Setting, ts: seq<Token>, was: seq<Segment>, now: seq<Segment>, i0: nat, k: nat, m: nat, t0: int)
    requires i0 <= k < m <= |ts| && Closes(e, ts[k]) && forall j :: i0 <= j < k ==> !Closes(e, ts[j])
    requires m == k + Stamps(e, ts[k..]) && now == was + Shows(e, t0, TimeAt(e, ts[k]), ts[i0..k + 1])
    ensures now + Emitted(e, ts[m..], TimeAt(e, ts[k])) == was + Emitted(e, ts[i0..], t0)
  {
    hide Emitted, Shows, Stamps;
    EmittedAt(e, ts, i0, k, m, t0);
  }

  lemma LastEmitted(e: Setting, ts: seq<Token>, i0: nat, t0: int)
    requires i0 <= |ts| && forall j :: i0 <= j < |ts| ==> !Closes(e, ts[j])
    ensures Emitted(e, ts[i0..], t0) == Shows(e, t0, e.seek + e.seekDelta, ts[i0..]) && ts[i0..|ts|] == ts[i0..]
  {
    hide TextOf, Shows;
    CloserIs(e, ts[i0..], |ts[i0..]|);
  }

  // ---- nothing with text is lost ----

  function Flat(s: seq<Segment>): seq<Token> {
    if s == [] then [] else Flat(s[..|s| - 1]) + s[|s| - 1].tokens
  }

  function Texts(s: seq<Segment>): string {
    if s == [] then [] else Texts(s[..|s| - 1]) + s[|s| - 1].text
  }

  /** The tokens that show something, in order. */
  function WithText(e: Setting, ts: seq<Token>): seq<Token> {
    if ts == [] then []
    else
      var t := ts[|ts| - 1];
      WithText(e, ts[..|ts| - 1]) + if Shown(e, t) && t.text != [] then [t] else []
  }

  lemma {:induction false} TextAppend(e: Setting, a: seq<Token>, b: seq<Token>)
    ensures TextOf(e, a + b) == TextOf(e, a) + TextOf(e, b)
    ensures WithText(e, a + b) == WithText(e, a) + WithText(e, b)
    decreases |b|
  {
    if b == [] {
      assert a + b == a;
    } else {
      var c := b[..|b| - 1];
      assert (a + b)[..|a + b| - 1] == a + c;
      TextAppend(e, a, c);
    }
  }

  lemma {:induction false} FlatAppend(a: seq<Segment>, b: seq<Segment>)
    ensures Flat(a + b) == Flat(a) + Flat(b)
    decreases |b|
  {
    if b == [] {
      assert a + b == a;
    } else {
      var c := b[..|b| - 1];
      assert (a + b)[..|a + b| - 1] == a + c;
      FlatAppend(a, c);
      assert Flat(a) + Flat(c) + b[|c|].tokens == Flat(a) + (Flat(c) + b[|c|].tokens);
    }
  }

  lemma {:induction false} TextsAppend(a: seq<Segment>, b: seq<Segment>)
    ensures Texts(a + b) == Texts(a) + Texts(b)
    decreases |b|
  {
    if b == [] {
      assert a + b == a;
    } else {
      var c := b[..|b| - 1];
      assert (a + b)[..|a + b| - 1] == a + c;
      TextsAppend(a, c);
      assert Texts(a) + Texts(c) + b[|c|].text == Texts(a) + (Texts(c) + b[|c|].text);
    }
  }

  lemma {:induction false} NoTextNoTokens(e: Setting, ts: seq<Token>)
    requires TextOf(e, ts) == []
    ensures WithText(e, ts) == []
  {
    if ts != [] { NoTextNoTokens(e, ts[..|ts| - 1]); }
  }

  /** Timestamps show nothing. */
  lemma {:induction false} StampsShowNothing(e: Setting, ts: seq<Token>)
    requires !e.printSpecial && e.v.eot <= e.v.beg && forall k :: 0 <= k < |ts| ==> ts[k].id > e.v.beg
    ensures TextOf(e, ts) == [] && WithText(e, ts) == []
  {
    if ts != [] { StampsShowNothing(e, ts[..|ts| - 1]); }
  }

  lemma {:induction false} StampsAre(e: Setting, ts: seq<Token>)
    ensures forall k :: 0 <= k < Stamps(e, ts) ==> ts[k].id > e.v.beg
  {
    if ts != [] && ts[0].id > e.v.beg {
      StampsAre(e, ts[1..]);
      forall k | 0 < k < Stamps(e, ts) ensures ts[k].id > e.v.beg { assert ts[1..][k - 1] == ts[k]; }
    }
  }

  lemma ShowsAll(e: Setting, t0: int, t1: int, ts: seq<Token>)
    ensures var s := Shows(e, t0, t1, ts); Texts(s) == TextOf(e, ts) && WithText(e, Flat(s)) == WithText(e, ts)
  {
    if TextOf(e, ts) == [] { NoTextNoTokens(e, ts); } else { OneSegment(Shows(e, t0, t1, ts)[0]); }
  }

  lemma OneSegment(s: Segment)
    ensures Texts([s]) == s.text && Flat([s]) == s.tokens
  {
    assert [s][..0] == [] && [] + s.text == s.text;
  }

  lemma MiddleShowsNothing(e: Setting, a: seq<Token>, b: seq<Token>, c: seq<Token>)
    requires TextOf(e, b) == [] && WithText(e, b) == []
    ensures TextOf(e, a + b + c) == TextOf(e, a) + TextOf(e, c) && WithText(e, a + b + c) == WithText(e, a) + WithText(e, c)
  {
    hide TextOf, WithText;
    TextAppend(e, a, b);
    TextAppend(e, a + b, c);
  }

  /** The timestamps skipped behind the one that ends a segment. */
  lemma SkippedShowNothing(e: Setting, ts: seq<Token>, k: nat)
    requires !e.printSpecial && e.v.eot <= e.v.beg && k < |ts| && ts[k].id > e.v.beg
    ensures var m := k + Stamps(e, ts[k..]);
            TextOf(e, ts) == TextOf(e, ts[..k + 1]) + TextOf(e, ts[m..])
            && WithText(e, ts) == WithText(e, ts[..k + 1]) + WithText(e, ts[m..])
  {
    hide TextOf, WithText, Stamps;
    var m := k + Stamps(e, ts[k..]);
    var skipped := ts[k + 1..m];
    StampsAre(e, ts[k..]);
    forall j | 0 <= j < |skipped| ensures skipped[j].id > e.v.beg { assert skipped[j] == ts[k..][j + 1]; }
    StampsShowNothing(e, skipped);
    assert ts[..k + 1] + skipped + ts[m..] == ts;
    MiddleShowsNothing(e, ts[..k + 1], skipped, ts[m..]);
  }

  /** Without special tokens in the text, the segments together show the text of the window, and every
      token with text is in exactly one of them, in order. */
  lemma {:induction false} EmitConserves(e: Setting, ts: seq<Token>, t0: int)
    requires !e.printSpecial && e.v.eot <= e.v.beg
    ensures var s := Emitted(e, ts, t0); Texts(s) == TextOf(e, ts) && WithText(e, Flat(s)) == WithText(e, ts)
    decreases |ts|
  {
    hide Emitted, TextOf, WithText, Shows, Flat, Texts, Stamps;
    var k := Closer(e, ts);
    if k == |ts| {
      WholeEmitted(e, ts, t0);
      ShowsAll(e, t0, e.seek + e.seekDelta, ts);
    } else {
      var m, t1 := k + Stamps(e, ts[k..]), TimeAt(e, ts[k]);
      SplitAt(e, ts, t0);
      SkippedShowNothing(e, ts, k);
      EmitConserves(e, ts[m..], t1);
      ShowsAll(e, t0, t1, ts[..k + 1]);
      FlatAppend(Shows(e, t0, t1, ts[..k + 1]), Emitted(e, ts[m..], t1));
      TextsAppend(Shows(e, t0, t1, ts[..k + 1]), Emitted(e, ts[m..], t1));
      TextAppend(e, Flat(Shows(e, t0, t1, ts[..k + 1])), Flat(Emitted(e, ts[m..], t1)));
    }
  }

  lemma WholeEmitted(e: Setting, ts: seq<Token>, t0: int)
    requires Closer(e, ts) == |ts|
    ensures Emitted(e, ts, t0) == Shows(e, t0, e.seek + e.seekDelta, ts)
  {
    hide TextOf, Shows;
  }

  // ---- times ----

  /** The timestamps stand for their own time, do not decrease, and lie in what the window moves on. */
  ghost predicate Timed(e: Setting, ts: seq<Token>) {
    && (forall a :: 0 <= a < |ts| && ts[a].id > e.v.beg ==> ts[a].tid == ts[a].id && 2 * (ts[a].id - e.v.beg) <= e.seekDelta)
    && forall a, b :: 0 <= a < b < |ts| && ts[a].id > e.v.beg && ts[b].id > e.v.beg ==> ts[a].id <= ts[b].id
  }

  /** Segments one after the other, from `t` on. */
  ghost predicate InOrder(s: seq<Segment>, t: int, end: int) {
    && (forall k :: 0 <= k < |s| ==> t <= s[k].t0 <= s[k].t1 <= end)
    && forall k, l :: 0 <= k < l < |s| ==> s[k].t1 <= s[l].t0
  }

  /** No timestamp is before time `t`. */
  ghost predicate NotBefore(e: Setting, ts: seq<Token>, t: int) {
    && t <= e.seek + e.seekDelta
    && forall a :: 0 <= a < |ts| && ts[a].id > e.v.beg ==> t <= TimeAt(e, ts[a])
  }

  lemma InOrderCons(s: seq<Segment>, r: seq<Segment>, t: int, m: int, end: int)
    requires |s| <= 1 && t <= m && InOrder(r, m, end) && (s != [] ==> t <= s[0].t0 <= s[0].t1 <= m && m <= end)
    ensures InOrder(s + r, t, end)
  {
  }

  lemma RestIsTimed(e: Setting, ts: seq<Token>, k: nat, m: nat)
    requires Timed(e, ts) && k < m <= |ts| && ts[k].id > e.v.beg
    ensures Timed(e, ts[m..]) && NotBefore(e, ts[m..], TimeAt(e, ts[k])) && TimeAt(e, ts[k]) <= e.seek + e.seekDelta
  {
  }

  lemma {:induction false} EmittedInOrder(e: Setting, ts: seq<Token>, t0: int)
    requires Timed(e, ts) && NotBefore(e, ts, t0)
    ensures InOrder(Emitted(e, ts, t0), t0, e.seek + e.seekDelta)
    decreases |ts|
  {
    hide Emitted, TextOf, Stamps, InOrder;
    var k, end := Closer(e, ts), e.seek + e.seekDelta;
    if k == |ts| {
      WholeEmitted(e, ts, t0);
      OneInOrder(Shows(e, t0, end, ts), t0, end, end);
    } else {
      var m, t1 := k + Stamps(e, ts[k..]), TimeAt(e, ts[k]);
      SplitAt(e, ts, t0);
      RestIsTimed(e, ts, k, m);
      EmittedInOrder(e, ts[m..], t1);
      InOrderCons(Shows(e, t0, t1, ts[..k + 1]), Emitted(e, ts[m..], t1), t0, t1, end);
    }
  }

  lemma OneInOrder(s: seq<Segment>, t: int, m: int, end: int)
    requires |s| <= 1 && t <= m <= end && (s != [] ==> t <= s[0].t0 <= s[0].t1 <= m)
    ensures InOrder(s, t, end)
  {
  }

  /** Times run forwards over all segments of a window exactly when the first segment does not end
      before it starts: only its start is read off a token that need not be a timestamp. */
  lemma TimesInOrderIff(e: Setting, ts: seq<Token>)
    requires Timed(e, ts)
    ensures var s := AllEmitted(e, ts);
            s != [] ==> (InOrder(s, s[0].t0, e.seek + e.seekDelta) <==> s[0].t0 <= s[0].t1)
  {
    hide Emitted, TextOf, Stamps;
    if ts != [] {
      var k, end, t0 := Closer(e, ts), e.seek + e.seekDelta, TimeAt(e, ts[0]);
      if k == |ts| {
        WholeEmitted(e, ts, t0);
      } else {
        var m, t1 := k + Stamps(e, ts[k..]), TimeAt(e, ts[k]);
        var first, rest := Shows(e, t0, t1, ts[..k + 1]), Emitted(e, ts[m..], t1);
        SplitAt(e, ts, t0);
        RestIsTimed(e, ts, k, m);
        EmittedInOrder(e, ts[m..], t1);
        RestInOrder(first, rest, t0, t1, end);
      }
    }
  }

  lemma RestInOrder(s: seq<Segment>, r: seq<Segment>, t0: int, t1: int, end: int)
    requires |s| <= 1 && (s != [] ==> s[0].t0 == t0 && s[0].t1 == t1) && InOrder(r, t1, end) && t1 <= end
    ensures var all := s + r; all != [] ==> (InOrder(all, all[0].t0, end) <==> all[0].t0 <= all[0].t1)
  {
    var all := s + r;
    if s == [] {
      assert all == r;
    } else if t0 <= t1 {
      InOrderCons(s, r, t0, t1, end);
    }
  }

  /** The tokens of hypothesis `h`, or as many of them as its result has. */
  ghost predicate Of(h: Hyp, ts: seq<Token>) {
    |ts| <= |h.tokens| && forall k :: 0 <= k < |ts| ==> ts[k].id == h.tokens[k]
  }

  /** Sampling sets the best timestamp of a timestamp to itself. */
  ghost predicate OwnTimes(v: Vocab, ts: seq<Token>) {
    forall k :: 0 <= k < |ts| && Timestamp(v, ts[k].id) ==> ts[k].tid == ts[k].id
  }

  /** Every hypothesis the decoders can end with is timed, so a window whose first token is a timestamp
      gives segments in order, inside what the window moves on. */
  lemma WindowInOrder(e: Setting, p: Params, h: Hyp, ts: seq<Token>)
    requires HypInv(e.v, p, h) && e.seekDelta == h.seekDelta && Of(h, ts) && OwnTimes(e.v, ts)
    ensures Timed(e, ts)
    ensures ts != [] && Timestamp(e.v, ts[0].id) ==> InOrder(AllEmitted(e, ts), e.seek, e.seek + e.seekDelta)
  {
    hide Emitted, NeverThree, Paired, Agrees;
    forall a, b | 0 <= a < b < |ts| && ts[a].id > e.v.beg && ts[b].id > e.v.beg ensures ts[a].id <= ts[b].id {
      assert h.tokens[a] <= h.tokens[b];
    }
    if ts != [] && Timestamp(e.v, ts[0].id) {
      FirstIsEarliest(e, p, h, ts);
      EmittedInOrder(e, ts, TimeAt(e, ts[0]));
      LaterStart(AllEmitted(e, ts), e.seek, TimeAt(e, ts[0]), e.seek + e.seekDelta);
    }
  }

  lemma FirstIsEarliest(e: Setting, p: Params, h: Hyp, ts: seq<Token>)
    requires HypInv(e.v, p, h) && e.seekDelta == h.seekDelta && Of(h, ts) && OwnTimes(e.v, ts)
    requires ts != [] && Timestamp(e.v, ts[0].id)
    ensures NotBefore(e, ts, TimeAt(e, ts[0])) && e.seek <= TimeAt(e, ts[0])
  {
    hide NeverThree, Paired, Agrees;
    forall a | 0 <= a < |ts| && ts[a].id > e.v.beg ensures TimeAt(e, ts[0]) <= TimeAt(e, ts[a]) {
      if a > 0 { assert h.tokens[0] <= h.tokens[a]; }
    }
  }

  lemma LaterStart(s: seq<Segment>, t: int, later: int, end: int)
    requires t <= later && InOrder(s, later, end)
    ensures InOrder(s, t, end)
  {
  }
}
