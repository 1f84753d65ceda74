/** Which tokens a decoder may emit, and what its timestamps look like over a whole window. */
module Timestamps {
  import opened Wrappers

  /** Token ids: text below `eot`, special tokens between `eot` and `beg`, timestamps from `beg` on. */
  datatype Vocab = Vocab(size: nat, eot: nat, sot: nat, translate: nat, transcribe: nat, solm: nat, prev: nat,
                         nosp: nat, not: nat, beg: nat, space: nat)

  const LANGUAGES: nat := 100
  const FULL_WINDOW: int := 3000
  const DELTA_MIN: int := 10

  predicate Multilingual(size: nat) { size >= 51865 }

  ghost predicate VocabOk(v: Vocab) {
    && v.eot < v.sot && v.sot + LANGUAGES < v.beg
    && v.sot < v.translate < v.transcribe < v.solm < v.prev < v.nosp < v.not < v.beg
    && v.beg + 1501 == v.size && v.space < v.size
  }

  /** The ids for a vocabulary size; with more languages the later ones move up. */
  function VocabOf(size: nat, space: nat): (v: Vocab)
    requires size >= 51864
    ensures v.beg + 1501 == size && (space < size ==> VocabOk(v))
  {
    var m := if Multilingual(size) then 1 else 0;
    var dt := if Multilingual(size) then size - 51765 - 1 - 98 else 0;
    Vocab(size, 50256 + m, 50257 + m, 50357 + dt, 50358 + dt, 50359 + dt, 50360 + dt, 50361 + dt, 50362 + dt,
          50363 + dt, space)
  }

  predicate Language(v: Vocab, id: int) { v.sot + 1 <= id <= v.sot + LANGUAGES }

  predicate Task(v: Vocab, tdrz: bool, id: int) {
    || id == v.not || id == v.sot || id == v.nosp || id == v.translate || id == v.transcribe || id == v.prev
    || (id == v.solm && !tdrz)
  }

  predicate Special(v: Vocab, tdrz: bool, id: int) {
    Task(v, tdrz, id) || Language(v, id)
  }

  /** The masks leave no id between end-of-text and the timestamps exactly for vocabularies of at
      most a hundred languages. */
  lemma SpecialsCoverIff(size: nat, space: nat)
    requires size >= 51864
    ensures var v := VocabOf(size, space);
            (forall id :: v.eot < id < v.beg ==> Special(v, false, id)) <==> size <= 51866
  {
    var v := VocabOf(size, space);
    if size > 51866 {
      assert v.eot < v.sot + 101 < v.beg && !Special(v, false, v.sot + 101);
    }
  }

  // ---- the masks ----

  datatype Params = Params(suppressBlank: bool, noTimestamps: bool, tdrz: bool, singleSegment: bool, maxTokens: int,
                           initialTid: Option<nat>, noTensors: bool)

  /** One hypothesis: its tokens in the current window and the sliding-window state. */
  datatype Hyp = Hyp(tokens: seq<int>, hasTs: bool, seekDelta: int, resultLen: int, failed: bool, completed: bool)

  predicate Active(h: Hyp) { !h.failed && !h.completed }

  predicate Timestamp(v: Vocab, id: int) { id >= v.beg }

  /** Masked because timestamps come in pairs, except directly before the end of text. */
  predicate PairMask(v: Vocab, tokens: seq<int>, id: int) {
    var n := |tokens|;
    n > 0 && Timestamp(v, tokens[n - 1])
    && if n < 2 || Timestamp(v, tokens[n - 2]) then Timestamp(v, id) else id < v.eot
  }

  /** Masked because the first timestamp has a limit and later ones must not go back. */
  predicate TimeMask(v: Vocab, p: Params, h: Hyp, id: int) {
    || (h.tokens == [] && p.initialTid.Some? && id > v.beg + p.initialTid.value)
    || (h.hasTs && v.beg <= id < v.beg + h.seekDelta / 2)
  }

  /** Masked, whatever the logits and the other filters say. */
  predicate Masked(v: Vocab, p: Params, h: Hyp, id: int) {
    || Blank(v, p, h, id)
    || Special(v, p.tdrz, id)
    || PairMask(v, h.tokens, id)
    || TimeMask(v, p, h, id)
  }

  ghost predicate Widened(was: seq<bool>, now: seq<bool>, lo: int, hi: int) {
    |now| == |was| && forall i :: 0 <= i < |was| ==> now[i] == (was[i] || lo <= i < hi)
  }

  method MaskRange(masked: array<bool>, lo: nat, hi: nat)
    requires lo <= hi <= masked.Length
    modifies masked
    ensures Widened(old(masked[..]), masked[..], lo, hi)
  {
    for i := lo to hi
      invariant Widened(old(masked[..]), masked[..], lo, i)
    {
      masked[i] := true;
    }
  }

  predicate Blank(v: Vocab, p: Params, h: Hyp, id: int) {
    || (p.suppressBlank && h.tokens == [] && (id == v.eot || id == v.space))
    || (p.noTimestamps && Timestamp(v, id))
  }

  method MaskBlank(v: Vocab, p: Params, h: Hyp, masked: array<bool>)
    requires VocabOk(v) && masked.Length == v.size
    modifies masked
    ensures forall id :: 0 <= id < v.size ==> masked[id] == (old(masked[id]) || Blank(v, p, h, id))
  {
    if p.suppressBlank && h.tokens == [] {
      masked[v.eot] := true;
      masked[v.space] := true;
    }
    if p.noTimestamps {
      MaskRange(masked, v.beg, v.size);
    }
  }

  method MaskTasks(v: Vocab, tdrz: bool, masked: array<bool>)
    requires VocabOk(v) && masked.Length == v.size
    modifies masked
    ensures forall id :: 0 <= id < v.size ==> masked[id] == (old(masked[id]) || Task(v, tdrz, id))
  {
    masked[v.not] := true;
    masked[v.sot] := true;
    masked[v.nosp] := true;
    if !tdrz {
      masked[v.solm] := true;
    }
    masked[v.translate] := true;
    masked[v.transcribe] := true;
    masked[v.prev] := true;
  }

  method MaskSpecials(v: Vocab, tdrz: bool, masked: array<bool>)
    requires VocabOk(v) && masked.Length == v.size
    modifies masked
    ensures forall id :: 0 <= id < v.size ==> masked[id] == (old(masked[id]) || Special(v, tdrz, id))
  {
    hide Task;
    MaskTasks(v, tdrz, masked);
    MaskRange(masked, v.sot + 1, v.sot + 1 + LANGUAGES);
  }

  method MaskPairs(v: Vocab, tokens: seq<int>, masked: array<bool>)
    requires VocabOk(v) && masked.Length == v.size
    modifies masked
    ensures forall id :: 0 <= id < v.size ==> masked[id] == (old(masked[id]) || PairMask(v, tokens, id))
  {
    var lastWasTimestamp := |tokens| > 0 && tokens[|tokens| - 1] >= v.beg;
    var penultimateWasTimestamp := |tokens| < 2 || tokens[|tokens| - 2] >= v.beg;
    if lastWasTimestamp {
      if penultimateWasTimestamp {
        MaskRange(masked, v.beg, v.size);
      } else {
        MaskRange(masked, 0, v.eot);
      }
    }
  }

  method MaskTimes(v: Vocab, p: Params, h: Hyp, masked: array<bool>)
    requires VocabOk(v) && masked.Length == v.size && (h.hasTs ==> 0 <= h.seekDelta <= FULL_WINDOW)
    modifies masked
    ensures forall id :: 0 <= id < v.size ==> masked[id] == (old(masked[id]) || TimeMask(v, p, h, id))
  {
    if h.tokens == [] && p.initialTid.Some? && v.beg + p.initialTid.value + 1 <= v.size {
      MaskRange(masked, v.beg + p.initialTid.value + 1, v.size);
    }
    if h.hasTs {
      var tid0 := h.seekDelta / 2;
      MaskRange(masked, v.beg, v.beg + tid0);
    }
  }

  method MaskExtra(masked: array<bool>, extra: seq<bool>)
    requires masked.Length == |extra|
    modifies masked
    ensures forall id :: 0 <= id < |extra| ==> masked[id] == (old(masked[id]) || extra[id])
  {
    for i := 0 to masked.Length
      invariant forall k :: 0 <= k < masked.Length ==> masked[k] == (old(masked[k]) || (k < i && extra[k]))
    {
      if extra[i] { masked[i] := true; }
    }
  }

  /** All masks together.  What else the caller filters comes in `extra`; when the timestamps
      are more likely than any text, everything below them goes too. */
  method ProcessLogits(v: Vocab, p: Params, h: Hyp, masked: array<bool>, extra: seq<bool>, timestampsWin: bool)
    requires VocabOk(v) && masked.Length == v.size == |extra| && (h.hasTs ==> 0 <= h.seekDelta <= FULL_WINDOW)
    modifies masked
    ensures forall id :: 0 <= id < v.size ==>
              masked[id] == (old(masked[id]) || Masked(v, p, h, id) || extra[id] || (timestampsWin && id < v.beg))
  {
    hide Blank, Special, PairMask, TimeMask;
    MaskBlank(v, p, h, masked);
    MaskSpecials(v, p.tdrz, masked);
    MaskExtra(masked, extra);
    MaskPairs(v, h.tokens, masked);
    MaskTimes(v, p, h, masked);
    if timestampsWin {
      MaskRange(masked, 0, v.beg);
    }
  }

  // ---- the decoder's state after a token ----

  /** Where the window stands, and how many tokens it may have. */
  datatype Window = Window(seek: int, seekEnd: int, nMax: int)

  predicate BackInTime(v: Vocab, h: Hyp, token: int, i: int) {
    token > v.beg && h.hasTs && h.seekDelta > 2 * (token - v.beg) && h.resultLen < i
  }

  /** The sliding window after the token. */
  function Slid(v: Vocab, h: Hyp, token: int, i: int): Hyp {
    if token > v.beg then h.(seekDelta := 2 * (token - v.beg), resultLen := i + 1, hasTs := true) else h
  }

  predicate NearEnd(w: Window, h: Hyp) { w.seek + h.seekDelta + DELTA_MIN >= w.seekEnd }

  /** The token ends the segment. */
  predicate Ends(v: Vocab, p: Params, w: Window, h: Hyp, token: int, i: int) {
    token == v.eot || (p.maxTokens > 0 && i >= p.maxTokens) || (h.hasTs && NearEnd(w, h))
  }

  /** Everything up to the end of the segment is used, or the whole window. */
  function Finished(p: Params, w: Window, h: Hyp, i: int): Hyp {
    if h.resultLen == 0 && !p.noTimestamps && !NearEnd(w, h) then h.(failed := true)
    else if p.singleSegment || p.noTimestamps then h.(resultLen := i + 1, seekDelta := FULL_WINDOW, completed := true)
    else if h.resultLen == 0 then h.(resultLen := i + 1, completed := true)
    else h.(completed := true)
  }

  /** What becomes of hypothesis `h` after its `i`-th token, which is already appended. */
  function Updated(v: Vocab, p: Params, w: Window, h: Hyp, token: int, i: int): Hyp {
    if BackInTime(v, h, token, i) then h.(failed := true)
    else
      var s := Slid(v, h, token, i);
      if Ends(v, p, w, s, token, i) then Finished(p, w, s, i)
      else if p.noTensors then s.(seekDelta := FULL_WINDOW, completed := true)
      else if i == w.nMax - 1 && (s.resultLen == 0 || s.seekDelta < FULL_WINDOW / 2) then s.(failed := true)
      else s
  }

  class Decoder {
    var tokens: seq<int>
    var hasTs: bool
    var seekDelta: int
    var resultLen: int
    var failed: bool
    var completed: bool

    ghost function State(): Hyp
      reads this
    {
      Hyp(tokens, hasTs, seekDelta, resultLen, failed, completed)
    }

    constructor ()
      ensures State() == START
    {
      tokens, hasTs, seekDelta, resultLen, failed, completed := [], false, FULL_WINDOW, 0, false, false;
    }

    /** The end of the segment. */
    method Finish(p: Params, w: Window, i: int)
      modifies this
      ensures State() == Finished(p, w, old(State()), i)
    {
      if resultLen == 0 && !p.noTimestamps {
        if w.seek + seekDelta + DELTA_MIN >= w.seekEnd {
          resultLen := i + 1;
        } else {
          failed := true;
          return;
        }
      }
      if p.singleSegment || p.noTimestamps {
        resultLen := i + 1;
        seekDelta := FULL_WINDOW;
      }
      completed := true;
    }

    /** The update after sampling; nothing to do for a decoder that has finished. */
    method Update(v: Vocab, p: Params, w: Window, i: int)
      requires tokens != []
      modifies this
      ensures State() == if !Active(old(State())) then old(State())
                         else Updated(v, p, w, old(State()), old(tokens)[|old(tokens)| - 1], i)
    {
      hide Finished;
      if completed || failed {
        return;
      }
      var token := tokens[|tokens| - 1];
      if token > v.beg {
        var seekDeltaNew := 2 * (token - v.beg);
        if hasTs && seekDelta > seekDeltaNew && resultLen < i {
          failed := true;
          return;
        }
        seekDelta := seekDeltaNew;
        resultLen := i + 1;
        hasTs := true;
      }
      if token == v.eot || (p.maxTokens > 0 && i >= p.maxTokens)
         || (hasTs && w.seek + seekDelta + DELTA_MIN >= w.seekEnd) {
        Finish(p, w, i);
        return;
      }
      if p.noTensors {
        seekDelta := FULL_WINDOW;
        completed := true;
        return;
      }
      if i == w.nMax - 1 && (resultLen == 0 || seekDelta < FULL_WINDOW / 2) {
        failed := true;
      }
    }
  }

  // ---- whole windows ----

  const START := Hyp([], false, FULL_WINDOW, 0, false, false)

  /** All special tokens are masked, so that what is left is text, end of text or a timestamp. */
  ghost predicate Covered(v: Vocab, p: Params) {
    forall id :: v.eot < id < v.beg ==> Special(v, p.tdrz, id)
  }

  /** What the tokens of a hypothesis look like; only the pairs need all special tokens masked. */
  ghost predicate Shape(v: Vocab, p: Params, tokens: seq<int>) {
    && NeverThree(v, tokens) && Increasing(v, tokens)
    && (Covered(v, p) ==> Paired(v, tokens))
    && (p.noTimestamps ==> forall a :: 0 <= a < |tokens| ==> !Timestamp(v, tokens[a]))
  }

  /** No three timestamps in a row, and no two at the start. */
  ghost predicate NeverThree(v: Vocab, tokens: seq<int>) {
    forall a :: 0 < a < |tokens| && Timestamp(v, tokens[a]) && Timestamp(v, tokens[a - 1]) ==>
      a > 1 && !Timestamp(v, tokens[a - 2])
  }

  /** A timestamp that follows text is followed by a timestamp or the end of text. */
  ghost predicate Paired(v: Vocab, tokens: seq<int>) {
    forall a :: 2 <= a < |tokens| && Timestamp(v, tokens[a - 1]) && !Timestamp(v, tokens[a - 2]) ==>
      Timestamp(v, tokens[a]) || tokens[a] == v.eot
  }

  ghost predicate Increasing(v: Vocab, tokens: seq<int>) {
    forall a, b :: 0 <= a < b < |tokens| && Timestamp(v, tokens[a]) && Timestamp(v, tokens[b]) ==> tokens[a] <= tokens[b]
  }

  /** The state of a hypothesis agrees with its tokens. */
  ghost predicate Agrees(v: Vocab, h: Hyp) {
    && 2 <= h.seekDelta <= FULL_WINDOW && h.seekDelta % 2 == 0
    && (forall a :: 0 <= a < |h.tokens| && Timestamp(v, h.tokens[a]) ==>
          h.tokens[a] == v.beg || (h.hasTs && h.tokens[a] <= v.beg + h.seekDelta / 2))
    && (h.hasTs ==> h.resultLen > 0)
    && (h.hasTs ==> exists a :: 0 <= a < |h.tokens| && h.tokens[a] > v.beg && h.seekDelta == 2 * (h.tokens[a] - v.beg))
  }

  /** The result is a prefix of the tokens. */
  predicate LengthOk(h: Hyp) { 0 <= h.resultLen <= |h.tokens| }

  /** The window moves on to the last timestamp at least. */
  ghost predicate Within(v: Vocab, h: Hyp) {
    forall a :: 0 <= a < |h.tokens| && h.tokens[a] > v.beg ==> 2 * (h.tokens[a] - v.beg) <= h.seekDelta
  }

  ghost predicate HypInv(v: Vocab, p: Params, h: Hyp) {
    && Shape(v, p, h.tokens) && 2 <= h.seekDelta <= FULL_WINDOW && LengthOk(h) && Within(v, h)
    && (Active(h) ==> Agrees(v, h))
  }

  /** A token of positive probability: in the vocabulary and not masked. */
  predicate Allowed(v: Vocab, p: Params, h: Hyp, token: int) {
    0 <= token < v.size && !Masked(v, p, h, token)
  }

  /** The check against going back in time never fires. */
  lemma NeverBackInTime(v: Vocab, p: Params, h: Hyp, token: int)
    requires Active(h) && HypInv(v, p, h) && Allowed(v, p, h, token)
    ensures h.hasTs && Timestamp(v, token) ==> token >= v.beg + h.seekDelta / 2
    ensures forall i :: !BackInTime(v, h, token, i)
  {
  }

  lemma ThreeGrows(v: Vocab, tokens: seq<int>, token: int)
    requires NeverThree(v, tokens) && !PairMask(v, tokens, token)
    ensures NeverThree(v, tokens + [token])
  {
  }

  lemma PairedGrows(v: Vocab, tokens: seq<int>, token: int)
    requires Paired(v, tokens) && !PairMask(v, tokens, token) && (token <= v.eot || Timestamp(v, token))
    ensures Paired(v, tokens + [token])
  {
  }

  lemma IncreasingGrows(v: Vocab, tokens: seq<int>, token: int, least: int)
    requires Increasing(v, tokens) && (Timestamp(v, token) ==> token >= least)
    requires forall a :: 0 <= a < |tokens| && Timestamp(v, tokens[a]) ==> tokens[a] <= least
    ensures Increasing(v, tokens + [token])
  {
  }

  lemma ShapeGrows(v: Vocab, p: Params, h: Hyp, token: int)
    requires VocabOk(v) && Active(h) && HypInv(v, p, h) && Allowed(v, p, h, token)
    ensures Shape(v, p, h.tokens + [token])
  {
    hide NeverThree, Paired, Increasing, PairMask;
    NeverBackInTime(v, p, h, token);
    ThreeGrows(v, h.tokens, token);
    if Covered(v, p) { PairedGrows(v, h.tokens, token); }
    IncreasingGrows(v, h.tokens, token, if h.hasTs then v.beg + h.seekDelta / 2 else v.beg);
  }

  lemma AgreesGrows(v: Vocab, h: Hyp, token: int, i: int)
    requires VocabOk(v) && Agrees(v, h) && i >= 0 && token < v.size
    requires Timestamp(v, token) && h.hasTs ==> token >= v.beg + h.seekDelta / 2
    ensures Agrees(v, Slid(v, h.(tokens := h.tokens + [token]), token, i))
  {
    var g := h.(tokens := h.tokens + [token]);
    if token > v.beg {
      assert g.tokens[|h.tokens|] == token;
    } else if h.hasTs {
      var a :| 0 <= a < |h.tokens| && h.tokens[a] > v.beg && h.seekDelta == 2 * (h.tokens[a] - v.beg);
      assert g.tokens[a] == h.tokens[a];
    }
  }

  /** What an update leaves behind. */
  lemma UpdateCases(v: Vocab, p: Params, w: Window, h: Hyp, token: int, i: int)
    requires token < v.size == v.beg + 1501 && 2 <= h.seekDelta <= FULL_WINDOW && Active(h)
    requires 0 <= h.resultLen <= i < |h.tokens|
    ensures var u := Updated(v, p, w, h, token, i);
            && u.tokens == h.tokens && 2 <= u.seekDelta <= FULL_WINDOW && LengthOk(u)
            && (Active(u) ==> u == Slid(v, h, token, i))
  {
  }

  lemma UpdatedWithin(v: Vocab, p: Params, w: Window, h: Hyp, token: int, i: int)
    requires Agrees(v, Slid(v, h, token, i)) && !BackInTime(v, h, token, i)
    ensures Within(v, Updated(v, p, w, h, token, i))
  {
    var s := Slid(v, h, token, i);
    assert Within(v, s);
    assert forall a :: 0 <= a < |h.tokens| && h.tokens[a] > v.beg ==> 2 * (h.tokens[a] - v.beg) <= FULL_WINDOW;
  }

  /** One token keeps the invariant, whichever way the update goes. */
  lemma TokenKeepsInv(v: Vocab, p: Params, w: Window, h: Hyp, token: int, i: int)
    requires VocabOk(v) && Active(h) && HypInv(v, p, h) && Allowed(v, p, h, token) && i == |h.tokens|
    ensures var h' := Updated(v, p, w, h.(tokens := h.tokens + [token]), token, i);
            HypInv(v, p, h') && h'.tokens == h.tokens + [token]
  {
    hide Shape, Agrees, Updated, Masked;
    ShapeGrows(v, p, h, token);
    NeverBackInTime(v, p, h, token);
    AgreesGrows(v, h, token, i);
    assert !BackInTime(v, h, token, i);
    UpdatedWithin(v, p, w, h.(tokens := h.tokens + [token]), token, i);
    UpdateCases(v, p, w, h.(tokens := h.tokens + [token]), token, i);
  }

  /** One iteration of all decoders: each one still active goes on from some active one's
      hypothesis (its own, or under beam search another's) by a token allowed there. */
  ghost predicate NextHyps(v: Vocab, p: Params, w: Window, hs: seq<Hyp>, hs': seq<Hyp>, i: int) {
    && |hs'| == |hs|
    && forall j :: 0 <= j < |hs| ==>
         if Active(hs[j]) then Continues(v, p, w, hs, hs'[j], i) else hs'[j] == hs[j]
  }

  ghost predicate Continues(v: Vocab, p: Params, w: Window, hs: seq<Hyp>, h': Hyp, i: int) {
    exists s, token :: 0 <= s < |hs| && Active(hs[s]) && Allowed(v, p, hs[s], token)
      && h' == Updated(v, p, w, hs[s].(tokens := hs[s].tokens + [token]), token, i)
  }

  ghost predicate IsRun(v: Vocab, p: Params, w: Window, run: seq<seq<Hyp>>) {
    && run != [] && (forall j :: 0 <= j < |run[0]| ==> run[0][j] == START)
    && forall i :: 0 <= i < |run| - 1 ==> StepOf(v, p, w, run, i)
  }

  ghost predicate StepOf(v: Vocab, p: Params, w: Window, run: seq<seq<Hyp>>, i: nat)
    requires i + 1 < |run|
  {
    NextHyps(v, p, w, run[i], run[i + 1], i)
  }

  /** After `i` iterations every hypothesis is sound, and the active ones have `i` tokens. */
  ghost predicate AllInv(v: Vocab, p: Params, hs: seq<Hyp>, i: int) {
    forall j :: 0 <= j < |hs| ==> InvAt(v, p, hs[j], i)
  }

  ghost predicate InvAt(v: Vocab, p: Params, h: Hyp, i: int) {
    HypInv(v, p, h) && (Active(h) ==> |h.tokens| == i)
  }

  lemma NextKeepsInv(v: Vocab, p: Params, w: Window, hs: seq<Hyp>, hs': seq<Hyp>, i: nat)
    requires VocabOk(v) && NextHyps(v, p, w, hs, hs', i) && AllInv(v, p, hs, i)
    ensures AllInv(v, p, hs', i + 1)
  {
    hide HypInv, Updated, Allowed, VocabOk;
    forall j | 0 <= j < |hs| ensures InvAt(v, p, hs'[j], i + 1) {
      assert InvAt(v, p, hs[j], i);
      if Active(hs[j]) {
        assert Continues(v, p, w, hs, hs'[j], i);
        ContinuedInv(v, p, w, hs, hs'[j], i);
      } else {
        assert hs'[j] == hs[j];
      }
    }
  }

  lemma ContinuedInv(v: Vocab, p: Params, w: Window, hs: seq<Hyp>, h': Hyp, i: nat)
    requires VocabOk(v) && Continues(v, p, w, hs, h', i) && AllInv(v, p, hs, i)
    ensures InvAt(v, p, h', i + 1)
  {
    hide HypInv, Updated, Allowed, VocabOk;
    var s, token :| 0 <= s < |hs| && Active(hs[s]) && Allowed(v, p, hs[s], token)
      && h' == Updated(v, p, w, hs[s].(tokens := hs[s].tokens + [token]), token, i);
    assert InvAt(v, p, hs[s], i);
    TokenKeepsInv(v, p, w, hs[s], token, i);
  }

  /** Over every run, greedy or beam: never three timestamps in a row, never a timestamp before an
      earlier one, a result within the tokens, and, if all special tokens are masked, timestamps
      in pairs or before the end of text. */
  lemma {:induction false} TimestampsForever(v: Vocab, p: Params, w: Window, run: seq<seq<Hyp>>, i: nat)
    requires VocabOk(v) && IsRun(v, p, w, run) && i < |run|
    ensures AllInv(v, p, run[i], i)
  {
    hide AllInv, NextHyps, VocabOk;
    if i == 0 {
      StartInv(v, p, run[0]);
    } else {
      var k := i - 1;
      TimestampsForever(v, p, w, run, k);
      assert StepOf(v, p, w, run, k);
      NextKeepsInv(v, p, w, run[k], run[k + 1], k);
    }
  }

  lemma StartInv(v: Vocab, p: Params, hs: seq<Hyp>)
    requires forall j :: 0 <= j < |hs| ==> hs[j] == START
    ensures AllInv(v, p, hs, 0)
  {
  }

  /** After text and a timestamp, a token that breaks the pair can follow exactly when some special
      token is not masked: with more than a hundred languages, or when speaker turns are enabled. */
  lemma PairsKeptIff(v: Vocab, p: Params, h: Hyp)
    requires VocabOk(v) && |h.tokens| >= 2 && Paired(v, h.tokens)
    requires Timestamp(v, h.tokens[|h.tokens| - 1]) && !Timestamp(v, h.tokens[|h.tokens| - 2])
    ensures (forall token :: Allowed(v, p, h, token) ==> Paired(v, h.tokens + [token])) <==> Covered(v, p)
  {
    hide Paired, Special;
    if Covered(v, p) {
      forall token | Allowed(v, p, h, token) ensures Paired(v, h.tokens + [token]) {
        PairedGrows(v, h.tokens, token);
      }
    } else {
      var id :| v.eot < id < v.beg && !Special(v, p.tdrz, id);
      assert Allowed(v, p, h, id);
      PairBroken(v, h.tokens, id);
    }
  }

  lemma PairBroken(v: Vocab, tokens: seq<int>, id: int)
    requires |tokens| >= 2 && Timestamp(v, tokens[|tokens| - 1]) && !Timestamp(v, tokens[|tokens| - 2])
    requires v.eot < id < v.beg
    ensures !Paired(v, tokens + [id])
  {
    var t, a := tokens + [id], |tokens|;
    assert t[a - 1] == tokens[a - 1] && t[a - 2] == tokens[a - 2];
    assert Timestamp(v, t[a - 1]) && !Timestamp(v, t[a - 2]) && t[a] == id;
  }
}
