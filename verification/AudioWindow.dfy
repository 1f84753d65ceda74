/** The main loop over the audio: the rolling text context, the prompt of each window, and the
    progress of the window itself. */
module AudioWindow {
  import opened Arith
  import opened Timestamps

  // ---- the prompt ----

  /** What decides on the prompt: the history budget follows from the first two. */
  datatype Setup = Setup(nMaxTextCtx: int, nTextCtx: nat, carry: bool, prevToken: int, init: seq<int>)

  function Budget(s: Setup): int {
    if s.nMaxTextCtx < s.nTextCtx / 2 then s.nMaxTextCtx else s.nTextCtx / 2
  }

  /** Start of transcript, language and task, and possibly no-timestamps. */
  predicate SetupOk(s: Setup) { 1 <= |s.init| <= 4 && (s.init[0] != s.prevToken) }

  function Last(t: seq<int>, n: nat): (r: seq<int>)
    requires n <= |t|
    ensures |r| == n && t == t[..|t| - n] + r
  {
    t[|t| - n..]
  }

  /** The part of the initial prompt that is carried from window to window. */
  function Carried(s: Setup, tokens: seq<int>): (r: seq<int>)
    ensures |r| == Min(|tokens|, Max(1, Budget(s) - 1))
  {
    Last(tokens, Min(|tokens|, Max(1, Budget(s) - 1)))
  }

  /** How many tokens of the rolling context fit behind the carried ones; negative when even those
      are too many. */
  function Room(s: Setup, past0: seq<int>): int {
    Budget(s) - (if s.carry then |past0| else 0) - 1
  }

  /** The counts of history tokens to take are not negative. */
  predicate TakesHistory(s: Setup, past0: seq<int>) {
    Budget(s) > 0 ==> Room(s, past0) >= 0
  }

  /** The prompt with history: a previous-token marker, all carried tokens, then as much of the
      end of the rolling context as the budget has room for. */
  function History(s: Setup, past0: seq<int>, past1: seq<int>): (r: seq<int>)
    requires TakesHistory(s, past0)
    ensures r != [] ==> r[0] == s.prevToken && |r| <= Budget(s)
    ensures (exists n :: 0 <= n <= |past1| && r == [s.prevToken] + (if s.carry then past0 else []) + past1[n..]) || r == []
  {
    if Budget(s) > 0 && ((s.carry && past0 != []) || past1 != []) then
      [s.prevToken] + (if s.carry then past0 else []) + Last(past1, Min(Room(s, past0), |past1|))
    else []
  }

  /** The carried prompt after a call has looked at its initial prompt: one that an earlier call
      left behind is kept as it is, whatever budget it was cut for. */
  function CarriedAfter(s: Setup, noContext: bool, past0: seq<int>, tokens: seq<int>): seq<int> {
    var kept := if noContext then [] else past0;
    if tokens != [] && s.carry && kept == [] then Carried(s, tokens) else kept
  }

  /** When the count of context tokens to take is negative, in terms of what the caller of a call
      knows: a prompt is carried, and either one that fills the budget is still there from an
      earlier call, or a new one has to fit into a budget of one beside the marker. */
  lemma RoomIff(s: Setup, noContext: bool, past0: seq<int>, tokens: seq<int>)
    requires Budget(s) > 0
    ensures Room(s, CarriedAfter(s, noContext, past0, tokens)) < 0 <==>
            s.carry && if noContext || past0 == [] then tokens != [] && Budget(s) == 1 else |past0| >= Budget(s)
    ensures TakesHistory(s, CarriedAfter(s, noContext, past0, tokens)) <==>
            Room(s, CarriedAfter(s, noContext, past0, tokens)) >= 0
  {
  }

  /** The failing case with a budget above one takes two calls on one state: the first carries a
      prompt of 300 tokens at the default budget, the second asks for a budget of ten. */
  lemma KeptPromptOverruns(tokens: seq<int>, prev: int, init: seq<int>)
    requires |tokens| == 300
    ensures var first, second := Setup(16384, 448, true, prev, init), Setup(10, 448, true, prev, init);
            var kept := CarriedAfter(first, false, [], tokens);
            && TakesHistory(first, kept) && |kept| == 223
            && Room(second, CarriedAfter(second, false, kept, tokens)) == -214
            && !TakesHistory(second, CarriedAfter(second, false, kept, tokens))
  {
    var first, second := Setup(16384, 448, true, prev, init), Setup(10, 448, true, prev, init);
    assert CarriedAfter(first, false, [], tokens) == Carried(first, tokens);
    assert CarriedAfter(second, false, Carried(first, tokens), tokens) == Carried(first, tokens);
  }

  /** Every position decoded in a window is below the text context: those of the prompt, and those
      of the tokens, at most `n_text_ctx / 2 - 4` of them. */
  lemma PositionsFit(s: Setup, past0: seq<int>, past1: seq<int>, cold: bool, i: nat)
    requires SetupOk(s) && TakesHistory(s, past0)
    ensures var prompt := (if s.nMaxTextCtx > 0 && cold then History(s, past0, past1) else []) + s.init;
            && |prompt| <= s.nTextCtx / 2 + 4
            && (s.nTextCtx >= 7 ==> |prompt| <= s.nTextCtx)
            && (i < s.nTextCtx / 2 - 4 ==> |prompt| + i < s.nTextCtx)
  {
  }

  class Context {
    var past0: seq<int>
    var past1: seq<int>

    constructor ()
      ensures past0 == [] && past1 == []
    {
      past0, past1 := [], [];
    }

    /** The caller's initial prompt: carried along, or put in front of the rolling context. */
    method Prepare(s: Setup, noContext: bool, tokens: seq<int>)
      modifies this
      ensures past0 == CarriedAfter(s, noContext, old(past0), tokens)
      ensures past1 == (if s.carry then [] else tokens) + if noContext then [] else old(past1)
    {
      if noContext {
        past0, past1 := [], [];
      }
      if tokens != [] {
        if s.carry {
          if past0 == [] {
            var maxTokens := Max(1, Budget(s) - 1);
            var nTokens := Min(|tokens|, maxTokens);
            past0 := tokens[|tokens| - nTokens..];
          }
        } else {
          var n := |past1|;
          past1 := past1 + tokens;
          // rotate the new tokens to the front
          past1 := past1[n..] + past1[..n];
        }
      }
    }

    method TakeHistory(s: Setup) returns (r: seq<int>)
      requires TakesHistory(s, past0)
      ensures r == History(s, past0, past1)
    {
      r := [];
      var maxPromptCtx := Min(s.nMaxTextCtx, s.nTextCtx / 2);
      var canTake0 := s.carry && past0 != [];
      var canTake1 := past1 != [];
      if maxPromptCtx > 0 && (canTake0 || canTake1) {
        r := [s.prevToken];
        var nTake0 := 0;
        if canTake0 {
          nTake0 := |past0|;
          r := r + past0[|past0| - nTake0..];
        }
        var nTake1 := Min(maxPromptCtx - nTake0 - 1, |past1|);
        r := r + past1[|past1| - nTake1..];
      }
    }

    /** The prompt of one window at one temperature; hot temperatures go without history. */
    method BuildPrompt(s: Setup, cold: bool) returns (prompt: seq<int>)
      requires SetupOk(s) && TakesHistory(s, past0)
      ensures prompt == (if s.nMaxTextCtx > 0 && cold then History(s, past0, past1) else []) + s.init
    {
      prompt := [];
      if s.nMaxTextCtx > 0 && cold {
        prompt := TakeHistory(s);
      }
      prompt := prompt + s.init;
    }

    /** After a window: the history that was in its prompt, unless it is carried separately, and
        the new tokens. */
    method Remember(s: Setup, prompt: seq<int>, tokens: seq<int>, noSpeech: bool, ghost h: seq<int>)
      requires SetupOk(s) && prompt == h + s.init && (h != [] ==> h[0] == s.prevToken)
      modifies this`past1
      ensures past1 == (if s.carry || h == [] then [] else h[1..]) + if noSpeech then [] else tokens
    {
      past1 := [];
      if !s.carry && prompt != [] && prompt[0] == s.prevToken {
        past1 := past1 + prompt[1..|prompt| - |s.init|];
      }
      if !noSpeech {
        past1 := past1 + tokens;
      }
    }
  }

  // ---- the window ----

  /** A single timestamp after text at the end: the rest of the window is skipped. */
  predicate SingleTimestampEnding(v: Vocab, tokens: seq<int>) {
    |tokens| > 1 && tokens[|tokens| - 2] < v.beg && tokens[|tokens| - 1] > v.beg
  }

  function Advance(v: Vocab, h: Hyp, kept: seq<int>, seek: int, seekEnd: int): int {
    if SingleTimestampEnding(v, kept) then Min(seekEnd - seek, FULL_WINDOW) else h.seekDelta
  }

  /** Whatever the best decoder ended with, success or failure, the window moves on. */
  lemma WindowMoves(v: Vocab, p: Params, h: Hyp, kept: seq<int>, seek: int, seekEnd: int)
    requires HypInv(v, p, h) && seek + DELTA_MIN < seekEnd
    ensures 2 <= Advance(v, h, kept, seek, seekEnd) <= FULL_WINDOW
  {
  }

  /** What a window brings: the caller or the decoder stops, or the hypothesis of the best decoder,
      at a cold or hot temperature, its tokens cut to its result unless it failed before that. */
  datatype Outcome = Stopped | Decoded(h: Hyp, cut: bool, cold: bool, noSpeech: bool)

  /** The tokens the hypothesis is left with. */
  function Kept(o: Outcome): (r: seq<int>)
    requires o.Decoded? && LengthOk(o.h)
    ensures o.h.resultLen <= |r| && r[..o.h.resultLen] == o.h.tokens[..o.h.resultLen]
  {
    if o.cut then o.h.tokens[..o.h.resultLen] else o.h.tokens
  }

  /** Whatever a run of the decoders ends with is an outcome the loop can go on from. */
  lemma RunGivesOutcome(v: Vocab, p: Params, w: Window, run: seq<seq<Hyp>>, j: nat, cut: bool, cold: bool, noSpeech: bool)
    requires VocabOk(v) && IsRun(v, p, w, run) && j < |run[|run| - 1]|
    ensures OutcomeOk(v, p, Decoded(run[|run| - 1][j], cut, cold, noSpeech))
  {
    TimestampsForever(v, p, w, run, |run| - 1);
    assert InvAt(v, p, run[|run| - 1][j], |run| - 1);
  }

  ghost predicate OutcomeOk(v: Vocab, p: Params, o: Outcome) {
    o.Decoded? ==> HypInv(v, p, o.h)
  }

  datatype Status = Done | Interrupted

  /** Window `k` brought a hypothesis and the next one starts where that says: at least 20 and at
      most 30000 ms on. */
  ghost predicate StepAt(v: Vocab, outcomes: nat -> Outcome, seeks: seq<int>, seekEnd: int, k: nat)
    requires k + 1 < |seeks|
  {
    && seeks[k] + DELTA_MIN < seekEnd && outcomes(k).Decoded? && LengthOk(outcomes(k).h)
    && seeks[k + 1] == seeks[k] + Advance(v, outcomes(k).h, Kept(outcomes(k)), seeks[k], seekEnd)
    && seeks[k] + 2 <= seeks[k + 1] <= seeks[k] + FULL_WINDOW
  }

  ghost predicate Ran(v: Vocab, outcomes: nat -> Outcome, seeks: seq<int>, seekEnd: int) {
    forall k :: 0 <= k < |seeks| - 1 ==> StepAt(v, outcomes, seeks, seekEnd, k)
  }

  lemma RanGrows(v: Vocab, p: Params, outcomes: nat -> Outcome, seeks: seq<int>, seekEnd: int, next: int)
    requires Ran(v, outcomes, seeks, seekEnd) && seeks != []
    requires var k := |seeks| - 1;
             seeks[k] + DELTA_MIN < seekEnd && outcomes(k).Decoded? && HypInv(v, p, outcomes(k).h)
             && next == seeks[k] + Advance(v, outcomes(k).h, Kept(outcomes(k)), seeks[k], seekEnd)
    ensures Ran(v, outcomes, seeks + [next], seekEnd) && seeks[|seeks| - 1] + 2 <= next
  {
    hide Advance, Shape, Agrees;
    var l, k := seeks + [next], |seeks| - 1;
    WindowMoves(v, p, outcomes(k).h, Kept(outcomes(k)), seeks[k], seekEnd);
    forall j | 0 <= j < |l| - 1 ensures StepAt(v, outcomes, l, seekEnd, j) {
      if j < k { assert StepAt(v, outcomes, seeks, seekEnd, j); }
    }
  }

  /** The loop ends, whatever the decoders produce: `outcomes(k)` is what window `k` brings. */
  method Transcribe(v: Vocab, p: Params, s: Setup, ctx: Context, seekStart: int, seekEnd: int, outcomes: nat -> Outcome)
    returns (status: Status, seeks: seq<int>)
    requires SetupOk(s) && TakesHistory(s, ctx.past0)
    requires forall k :: OutcomeOk(v, p, outcomes(k))
    modifies ctx
    ensures seeks != [] && seeks[0] == seekStart && Ran(v, outcomes, seeks, seekEnd)
    ensures status == Done ==> seeks[|seeks| - 1] + DELTA_MIN >= seekEnd
    ensures status == Interrupted ==> outcomes(|seeks| - 1) == Stopped
  {
    hide Shape, Agrees, Ran, History;
    var seek := seekStart;
    seeks := [seek];
    var k := 0;
    assert Ran(v, outcomes, seeks, seekEnd) by { NoStepYet(v, outcomes, seek, seekEnd); }
    while true
      invariant |seeks| == k + 1 && seeks[0] == seekStart && seeks[k] == seek
      invariant TakesHistory(s, ctx.past0) && Ran(v, outcomes, seeks, seekEnd)
      decreases seekEnd - seek
    {
      if seek + DELTA_MIN >= seekEnd {
        return Done, seeks;
      }
      if outcomes(k) == Stopped {
        return Interrupted, seeks;
      }
      if seek > seekStart && seek + 500 >= seekEnd {
        ctx.past0, ctx.past1 := [], [];
      }
      var o := outcomes(k);
      assert OutcomeOk(v, p, o);
      var kept := Kept(o);
      var prompt := ctx.BuildPrompt(s, o.cold);
      ghost var h := if s.nMaxTextCtx > 0 && o.cold then History(s, ctx.past0, ctx.past1) else [];
      ctx.Remember(s, prompt, kept[..o.h.resultLen], o.noSpeech, h);
      var seekDelta := o.h.seekDelta;
      if SingleTimestampEnding(v, kept) {
        seekDelta := Min(seekEnd - seek, FULL_WINDOW);
      }
      RanGrows(v, p, outcomes, seeks, seekEnd, seek + seekDelta);
      seek := seek + seekDelta;
      seeks := seeks + [seek];
      k := k + 1;
    }
  }

  lemma NoStepYet(v: Vocab, outcomes: nat -> Outcome, seek: int, seekEnd: int)
    ensures Ran(v, outcomes, [seek], seekEnd)
  {
  }
}
