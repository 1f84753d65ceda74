/** The voice-activity segmenter's scan: from one speech probability per window to raw segments,
    with hysteresis between two thresholds and splitting of segments that get too long. */
module VadScan {
  const SAMPLE_RATE: nat := 16000
  const INT_MAX: nat := 0x7fff_ffff

  /** A range of samples, the end not included. */
  datatype Segment = Segment(start: int, end: int)

  /** The caller's parameters, and the thresholds in samples the scan works with. */
  datatype Params = Params(threshold: real, minSpeechMs: nat, minSilenceMs: nat, maxSpeechS: real, padMs: nat)
  datatype Config = Config(threshold: real, negThreshold: real, window: nat, minSilence: nat, minSilenceAtMax: nat,
                           minSpeech: nat, maxSpeech: nat, pad: nat)

  function Configure(p: Params, window: nat): (c: Config)
    requires window > 0 && p.maxSpeechS >= 0.0
    ensures c.maxSpeech <= INT_MAX
    ensures p.threshold >= 0.01 <==> c.negThreshold <= c.threshold
  {
    var pad := SAMPLE_RATE * p.padMs / 1000;
    var room := SAMPLE_RATE * p.maxSpeechS.Floor - window - 2 * pad;
    var maxSpeech := if p.maxSpeechS > 100000.0 || room > INT_MAX || room < 0 then INT_MAX / 2 else room;
    var neg := if p.threshold - 0.15 < 0.01 then 0.01 else p.threshold - 0.15;
    Config(p.threshold, neg, window, SAMPLE_RATE * p.minSilenceMs / 1000, SAMPLE_RATE * 98 / 1000,
           SAMPLE_RATE * p.minSpeechMs / 1000, maxSpeech, pad)
  }

  /** First sample of window `k`. */
  function Sample(c: Config, k: nat): nat {
    if k == 0 then 0 else Sample(c, k - 1) + c.window
  }

  lemma {:induction false} SampleMul(c: Config, k: nat)
    ensures Sample(c, k) == c.window * k
  {
    if k > 0 { SampleMul(c, k - 1); assert c.window * k == c.window * (k - 1) + c.window; }
  }

  lemma {:induction false} SampleAtLeast(c: Config, k: nat)
    requires c.window > 0
    ensures Sample(c, k) >= k
  {
    if k > 0 { SampleAtLeast(c, k - 1); }
  }

  lemma {:induction false} SampleUp(c: Config, j: nat, k: nat)
    requires c.window > 0 && j < k
    ensures Sample(c, j) + c.window <= Sample(c, k)
  {
    if j < k - 1 { SampleUp(c, j, k - 1); }
  }

  // ---- what the raw segments are ----

  ghost predicate Sorted(s: seq<Segment>, limit: int) {
    && (forall j :: 0 <= j < |s| ==> 0 <= s[j].start <= s[j].end <= limit)
    && (forall j, k :: 0 <= j < k < |s| ==> s[j].end <= s[k].start)
  }

  lemma SortedPush(s: seq<Segment>, x: Segment, limit: int, limit': int)
    requires Sorted(s, limit) && limit <= limit' && 0 <= x.start <= x.end <= limit'
    requires forall j :: 0 <= j < |s| ==> s[j].end <= x.start
    ensures Sorted(s + [x], limit')
  {
  }

  ghost predicate InSome(s: seq<Segment>, x: int) {
    exists j :: 0 <= j < |s| && s[j].start <= x < s[j].end
  }

  lemma InSomePush(s: seq<Segment>, y: Segment)
    ensures forall x :: InSome(s, x) ==> InSome(s + [y], x)
    ensures forall x :: y.start <= x < y.end ==> InSome(s + [y], x)
  {
    forall x | InSome(s, x) ensures InSome(s + [y], x) {
      var j :| 0 <= j < |s| && s[j].start <= x < s[j].end;
      assert (s + [y])[j] == s[j];
    }
    assert (s + [y])[|s|] == y;
  }

  /** A segment was cut at `x` for its length, without a pause to cut it at. */
  ghost predicate CutAt(c: Config, s: seq<Segment>, x: int) {
    exists j :: 0 <= j < |s| && s[j].end == x && x - s[j].start > c.maxSpeech
  }

  predicate Speech(c: Config, probs: seq<real>, k: nat) {
    k < |probs| && probs[k] >= c.threshold
  }

  /** No window that starts in `[a, b)` holds speech. */
  ghost predicate Quiet(c: Config, probs: seq<real>, a: int, b: int) {
    forall k: nat :: a <= Sample(c, k) < b ==> !Speech(c, probs, k)
  }

  ghost predicate AtSpeech(c: Config, probs: seq<real>, x: int) {
    exists k: nat :: Sample(c, k) == x && Speech(c, probs, k)
  }

  ghost predicate AtSilence(c: Config, probs: seq<real>, x: int) {
    exists k: nat :: Sample(c, k) == x && k < |probs| && probs[k] < c.negThreshold
  }

  /** A segment starts where speech does and ends in silence, or because it is too long, or with
      the audio. */
  ghost predicate Justified(c: Config, probs: seq<real>, s: Segment) {
    && AtSpeech(c, probs, s.start)
    && (AtSilence(c, probs, s.end) || s.end - s.start > c.maxSpeech || s.end == Sample(c, |probs|))
  }

  /** Speech too short to keep: followed by the minimum silence, or by the end of the audio. */
  ghost predicate Burst(c: Config, probs: seq<real>, d: Segment) {
    && AtSpeech(c, probs, d.start) && d.end - d.start <= c.minSpeech
    && (d.end == Sample(c, |probs|) || (AtSilence(c, probs, d.end) && Quiet(c, probs, d.end + 1, d.end + c.minSilence)))
  }

  ghost predicate AllJustified(c: Config, probs: seq<real>, s: seq<Segment>) {
    forall j :: 0 <= j < |s| ==> Justified(c, probs, s[j])
  }

  ghost predicate AllBursts(c: Config, probs: seq<real>, dropped: seq<Segment>) {
    forall j :: 0 <= j < |dropped| ==> Burst(c, probs, dropped[j])
  }

  /** The sample a segment ends at. */
  ghost predicate EndsAt(s: seq<Segment>, x: int) {
    exists j :: 0 <= j < |s| && s[j].end == x
  }

  lemma EndsPush(s: seq<Segment>, y: Segment)
    ensures forall x :: EndsAt(s, x) ==> EndsAt(s + [y], x)
    ensures EndsAt(s + [y], y.end)
  {
    forall x | EndsAt(s, x) ensures EndsAt(s + [y], x) {
      var j :| 0 <= j < |s| && s[j].end == x;
      assert (s + [y])[j] == s[j];
    }
    assert (s + [y])[|s|] == y;
  }

  // ---- the scan's state ----

  /** The open segment, and where it might end: zero stands for unset. */
  datatype State = State(isSpeech: bool, hasCurr: bool, tempEnd: int, prevEnd: int, nextStart: int, currStart: int)

  const CLOSED := State(false, false, 0, 0, 0, 0)

  /** All pauses forgotten and the segment closed. */
  function Closed(st: State): State {
    CLOSED.(currStart := st.currStart)
  }

  /** The state, the segments so far, and what was dropped for being short. */
  datatype Scanned = Scanned(st: State, speeches: seq<Segment>, dropped: seq<Segment>)

  /** Back in speech: forget the pause, remember where speech went on. */
  function Resumed(c: Config, x: int, prob: real, st: State): State {
    if prob >= c.threshold && st.tempEnd != 0 then
      st.(tempEnd := 0, nextStart := if st.nextStart < st.prevEnd then x else st.nextStart)
    else st
  }

  function Started(x: int, st: State): State {
    st.(isSpeech := true, currStart := x, hasCurr := true)
  }

  predicate TooLong(c: Config, x: int, st: State) {
    st.isSpeech && x - st.currStart > c.maxSpeech
  }

  /** Too long: cut at the last pause if there was one, and here if not. */
  function Split(x: int, r: Scanned): Scanned {
    var st := r.st;
    if st.prevEnd != 0 then
      Scanned(if st.nextStart < st.prevEnd then Closed(st)
              else st.(hasCurr := true, currStart := st.nextStart, prevEnd := 0, nextStart := 0, tempEnd := 0),
              r.speeches + [Segment(st.currStart, st.prevEnd)], r.dropped)
    else Scanned(Closed(st), r.speeches + [Segment(st.currStart, x)], r.dropped)
  }

  /** A pause begins or goes on. */
  function Paused(c: Config, x: int, st: State): State {
    var t := if st.tempEnd == 0 then x else st.tempEnd;
    st.(tempEnd := t, prevEnd := if x - t > c.minSilenceAtMax then t else st.prevEnd)
  }

  /** The segment ends where its pause began, or is dropped if that makes it too short. */
  function Ended(c: Config, r: Scanned): Scanned {
    var x := Segment(r.st.currStart, r.st.tempEnd);
    if x.end - x.start > c.minSpeech then Scanned(Closed(r.st), r.speeches + [x], r.dropped)
    else Scanned(Closed(r.st), r.speeches, r.dropped + [x])
  }

  function Silence(c: Config, x: int, r: Scanned): Scanned {
    var p := r.(st := Paused(c, x, r.st));
    if x - p.st.tempEnd < c.minSilence then p else Ended(c, p)
  }

  /** One window of the scan, at sample `x`. */
  function ScanWindow(c: Config, x: int, prob: real, r: Scanned): Scanned {
    var q := r.(st := Resumed(c, x, prob, r.st));
    if prob >= c.threshold && !q.st.isSpeech then q.(st := Started(x, q.st))
    else if TooLong(c, x, q.st) && q.st.prevEnd == 0 then Split(x, q)
    else
      var u := if TooLong(c, x, q.st) then Split(x, q) else q;
      if prob < c.negThreshold && u.st.isSpeech then Silence(c, x, u) else u
  }

  /** The first `n` windows. */
  function ScanTo(c: Config, probs: seq<real>, n: nat): Scanned
    requires n <= |probs|
  {
    if n == 0 then Scanned(CLOSED, [], []) else ScanWindow(c, Sample(c, n - 1), probs[n - 1], ScanTo(c, probs, n - 1))
  }

  /** A segment still open at the end of the audio ends there. */
  function Finish(c: Config, length: int, r: Scanned): Scanned {
    var x := Segment(r.st.currStart, length);
    if !r.st.hasCurr then r
    else if x.end - x.start > c.minSpeech then r.(speeches := r.speeches + [x])
    else r.(dropped := r.dropped + [x])
  }

  function ScanResult(c: Config, probs: seq<real>): Scanned {
    Finish(c, Sample(c, |probs|), ScanTo(c, probs, |probs|))
  }

  /** The loop over the windows. */
  method Scan(c: Config, probs: seq<real>) returns (speeches: seq<Segment>)
    ensures speeches == ScanResult(c, probs).speeches
  {
    speeches := [];
    ghost var dropped: seq<Segment> := [];
    var st := CLOSED;
    var i := 0;
    while i < |probs|
      invariant i <= |probs|
      invariant Scanned(st, speeches, dropped) == ScanTo(c, probs, i)
    {
      SampleMul(c, i);
      var prob := probs[i];
      var x := c.window * i;
      i := i + 1;
      if prob >= c.threshold && st.tempEnd != 0 {
        st := st.(tempEnd := 0, nextStart := if st.nextStart < st.prevEnd then x else st.nextStart);
      }
      if prob >= c.threshold && !st.isSpeech {
        st := st.(isSpeech := true, currStart := x, hasCurr := true);
        continue;
      }
      if st.isSpeech && x - st.currStart > c.maxSpeech {
        if st.prevEnd != 0 {
          speeches := speeches + [Segment(st.currStart, st.prevEnd)];
          if st.nextStart < st.prevEnd {
            st := Closed(st);
          } else {
            st := st.(hasCurr := true, currStart := st.nextStart, prevEnd := 0, nextStart := 0, tempEnd := 0);
          }
        } else {
          speeches := speeches + [Segment(st.currStart, x)];
          st := Closed(st);
          continue;
        }
      }
      if prob < c.negThreshold && st.isSpeech {
        if st.tempEnd == 0 {
          st := st.(tempEnd := x);
        }
        if x - st.tempEnd > c.minSilenceAtMax {
          st := st.(prevEnd := st.tempEnd);
        }
        if x - st.tempEnd < c.minSilence {
          continue;
        }
        if st.tempEnd - st.currStart > c.minSpeech {
          speeches := speeches + [Segment(st.currStart, st.tempEnd)];
        } else {
          dropped := dropped + [Segment(st.currStart, st.tempEnd)];
        }
        st := Closed(st);
      }
    }
    SampleMul(c, |probs|);
    var length := |probs| * c.window;
    if st.hasCurr && length - st.currStart > c.minSpeech {
      speeches := speeches + [Segment(st.currStart, length)];
    }
  }

  // ---- what every window keeps ----

  ghost predicate OrderInv(c: Config, i: nat, st: State, s: seq<Segment>) {
    && Sorted(s, Sample(c, i))
    && st.hasCurr == st.isSpeech
    && (!st.isSpeech ==> st.tempEnd == st.prevEnd == st.nextStart == 0)
    && (st.isSpeech ==> OpenInv(c, i, st, s))
  }

  ghost predicate OpenInv(c: Config, i: nat, st: State, s: seq<Segment>) {
    && i > 0 && 0 <= st.currStart <= Sample(c, i)
    && (forall j :: 0 <= j < |s| ==> s[j].end <= st.currStart)
    && (st.tempEnd == 0 || st.currStart <= st.tempEnd <= Sample(c, i))
    && (st.prevEnd == 0 || st.currStart <= st.prevEnd <= Sample(c, i))
    && 0 <= st.nextStart <= Sample(c, i)
    && (st.prevEnd == 0 ==> st.nextStart == 0)
    && (st.nextStart < st.prevEnd ==> st.tempEnd == st.prevEnd)
  }

  /** What is remembered of the windows read. */
  ghost predicate CoverInv(c: Config, probs: seq<real>, i: nat, r: Scanned) {
    && AllJustified(c, probs, r.speeches) && AllBursts(c, probs, r.dropped)
    && (forall k: nat :: k < i && Speech(c, probs, k) ==> Safe(r, Sample(c, k)))
    && (r.st.isSpeech ==> AtSpeech(c, probs, r.st.currStart) && PauseInv(c, probs, i, r.st))
  }

  /** No speech in a pause after the window it began with. */
  ghost predicate PauseInv(c: Config, probs: seq<real>, i: nat, st: State) {
    && (st.tempEnd != 0 ==> AtSilence(c, probs, st.tempEnd) && Quiet(c, probs, st.tempEnd + 1, Sample(c, i)))
    && (st.prevEnd != 0 ==> AtSilence(c, probs, st.prevEnd))
    && (st.prevEnd != 0 && st.nextStart < st.prevEnd ==> Quiet(c, probs, st.prevEnd + 1, Sample(c, i)))
    && (st.prevEnd != 0 && st.nextStart >= st.prevEnd ==>
          AtSpeech(c, probs, st.nextStart) && Quiet(c, probs, st.prevEnd + 1, st.nextStart))
  }

  /** Where speech at sample `x` has gone: into a segment or a burst, open or closed, or it is
      where one of them ended. */
  ghost predicate Safe(r: Scanned, x: int) {
    || (r.st.isSpeech && r.st.currStart <= x)
    || InSome(r.speeches, x) || EndsAt(r.speeches, x)
    || InSome(r.dropped, x) || EndsAt(r.dropped, x)
  }

  ghost predicate Inv(c: Config, probs: seq<real>, i: nat, r: Scanned) {
    OrderInv(c, i, r.st, r.speeches) && CoverInv(c, probs, i, r)
  }

  lemma QuietNext(c: Config, probs: seq<real>, a: int, i: nat)
    requires c.window > 0 && Quiet(c, probs, a, Sample(c, i)) && !Speech(c, probs, i)
    ensures Quiet(c, probs, a, Sample(c, i + 1))
  {
    forall k: nat | a <= Sample(c, k) < Sample(c, i + 1) ensures !Speech(c, probs, k) {
      if k > i { SampleUp(c, i, k); }
      if k < i { SampleUp(c, k, i); }
    }
  }

  /** No window starts after the last one. */
  lemma QuietBehind(c: Config, probs: seq<real>, i: nat)
    requires c.window > 0
    ensures Quiet(c, probs, Sample(c, i) + 1, Sample(c, i + 1))
  {
    forall k: nat ensures !(Sample(c, i) + 1 <= Sample(c, k) < Sample(c, i + 1)) {
      if k > i { SampleUp(c, i, k); }
      if k < i { SampleUp(c, k, i); }
    }
  }

  lemma ResumedKeepsInv(c: Config, probs: seq<real>, i: nat, r: Scanned)
    requires c.window > 0 && i < |probs| && Inv(c, probs, i, r)
    ensures var q := r.(st := Resumed(c, Sample(c, i), probs[i], r.st));
            Inv(c, probs, i, q) && (probs[i] >= c.threshold ==> q.st.tempEnd == 0)
  {
    var q := r.(st := Resumed(c, Sample(c, i), probs[i], r.st));
    forall k: nat | k < i && Speech(c, probs, k) ensures Safe(q, Sample(c, k)) {
      assert Safe(r, Sample(c, k));
    }
    assert probs[i] >= c.threshold ==> Speech(c, probs, i);
  }

  /** A window that changes nothing else. */
  lemma PassKeepsInv(c: Config, probs: seq<real>, i: nat, r: Scanned)
    requires c.window > 0 && i < |probs| && Inv(c, probs, i, r)
    requires probs[i] >= c.threshold ==> r.st.tempEnd == 0 && r.st.isSpeech
    ensures Inv(c, probs, i + 1, r)
  {
    if r.st.isSpeech {
      if r.st.tempEnd != 0 { QuietNext(c, probs, r.st.tempEnd + 1, i); }
      if r.st.prevEnd != 0 && r.st.nextStart < r.st.prevEnd { QuietNext(c, probs, r.st.prevEnd + 1, i); }
    }
  }

  lemma NoPauseInv(c: Config, probs: seq<real>, i: nat, st: State)
    requires st.tempEnd == st.prevEnd == 0
    ensures PauseInv(c, probs, i, st)
  {
  }

  /** Speech begins. */
  lemma StartKeepsInv(c: Config, probs: seq<real>, i: nat, r: Scanned)
    requires c.window > 0 && i < |probs| && Inv(c, probs, i, r) && probs[i] >= c.threshold && !r.st.isSpeech
    ensures Inv(c, probs, i + 1, r.(st := Started(Sample(c, i), r.st)))
  {
    hide InSome, EndsAt, Justified, Burst, PauseInv;
    var q := r.(st := Started(Sample(c, i), r.st));
    assert Speech(c, probs, i);
    assert AtSpeech(c, probs, Sample(c, i));
    assert PauseInv(c, probs, i + 1, q.st) by { NoPauseInv(c, probs, i + 1, q.st); }
    forall k: nat | k < i + 1 && Speech(c, probs, k) ensures Safe(q, Sample(c, k)) {
      if k < i { assert Safe(r, Sample(c, k)); }
    }
  }

  lemma PushSafe(r: Scanned, y: Segment, st: State, x: int)
    requires Safe(r, x)
    requires r.st.isSpeech && r.st.currStart <= x ==>
               y.start <= x <= y.end || (st.isSpeech && st.currStart <= x)
    ensures Safe(Scanned(st, r.speeches + [y], r.dropped), x)
    ensures Safe(Scanned(st, r.speeches, r.dropped + [y]), x)
  {
    InSomePush(r.speeches, y);
    EndsPush(r.speeches, y);
    InSomePush(r.dropped, y);
    EndsPush(r.dropped, y);
  }

  /** Too long, and there was a pause: the segment ends with it. */
  lemma SplitKeepsInv(c: Config, probs: seq<real>, i: nat, r: Scanned)
    requires c.window > 0 && i < |probs| && Inv(c, probs, i, r) && r.st.isSpeech && r.st.prevEnd != 0
    requires probs[i] >= c.threshold ==> r.st.tempEnd == 0
    ensures var q := Split(Sample(c, i), r);
            Inv(c, probs, i, q) && (probs[i] >= c.threshold ==> q.st.tempEnd == 0 && q.st.isSpeech)
  {
    var q := Split(Sample(c, i), r);
    SortedPush(r.speeches, Segment(r.st.currStart, r.st.prevEnd), Sample(c, i), Sample(c, i));
    SplitCover(c, probs, i, r);
  }

  lemma SplitCover(c: Config, probs: seq<real>, i: nat, r: Scanned)
    requires c.window > 0 && i < |probs| && Inv(c, probs, i, r) && r.st.isSpeech && r.st.prevEnd != 0
    ensures CoverInv(c, probs, i, Split(Sample(c, i), r))
  {
    hide InSome, EndsAt;
    var q, y := Split(Sample(c, i), r), Segment(r.st.currStart, r.st.prevEnd);
    forall k: nat | k < i && Speech(c, probs, k) ensures Safe(q, Sample(c, k)) {
      SampleUp(c, k, i);
      PushSafe(r, y, q.st, Sample(c, k));
    }
  }

  /** Too long without a pause: cut here. */
  lemma CutKeepsInv(c: Config, probs: seq<real>, i: nat, r: Scanned)
    requires c.window > 0 && i < |probs| && Inv(c, probs, i, r) && r.st.prevEnd == 0 && TooLong(c, Sample(c, i), r.st)
    ensures Inv(c, probs, i + 1, Split(Sample(c, i), r))
  {
    var q, y := Split(Sample(c, i), r), Segment(r.st.currStart, Sample(c, i));
    SortedPush(r.speeches, y, Sample(c, i), Sample(c, i + 1));
    EndsPush(r.speeches, y);
    forall k: nat | k < i + 1 && Speech(c, probs, k) ensures Safe(q, Sample(c, k)) {
      if k < i {
        SampleUp(c, k, i);
        PushSafe(r, y, q.st, Sample(c, k));
      }
    }
  }

  lemma PauseKeepsInv(c: Config, probs: seq<real>, i: nat, r: Scanned)
    requires c.window > 0 && i < |probs| && Inv(c, probs, i, r) && r.st.isSpeech && probs[i] < c.negThreshold
    requires probs[i] >= c.threshold ==> r.st.tempEnd == 0
    ensures var q := r.(st := Paused(c, Sample(c, i), r.st));
            Inv(c, probs, i + 1, q) && q.st.tempEnd > 0
  {
    PauseKeepsOrder(c, i, r.st, r.speeches);
    PauseKeepsCover(c, probs, i, r);
  }

  lemma PauseKeepsOrder(c: Config, i: nat, st: State, s: seq<Segment>)
    requires c.window > 0 && OrderInv(c, i, st, s) && st.isSpeech
    ensures var p := Paused(c, Sample(c, i), st); OrderInv(c, i + 1, p, s) && p.tempEnd > 0
  {
    SampleUp(c, 0, i);
  }

  lemma PauseKeepsCover(c: Config, probs: seq<real>, i: nat, r: Scanned)
    requires c.window > 0 && i < |probs| && Inv(c, probs, i, r) && r.st.isSpeech && probs[i] < c.negThreshold
    requires probs[i] >= c.threshold ==> r.st.tempEnd == 0
    ensures CoverInv(c, probs, i + 1, r.(st := Paused(c, Sample(c, i), r.st)))
  {
    hide Safe, AllJustified, AllBursts, PauseInv, AtSpeech, AtSilence, Sorted, Sample;
    var q := r.(st := Paused(c, Sample(c, i), r.st));
    SilenceAt(c, probs, i);
    PausedInv(c, probs, i, r.st);
    forall k: nat | k < i + 1 && Speech(c, probs, k) ensures Safe(q, Sample(c, k)) {
      if k < i { SafeStill(r, q, Sample(c, k)); } else { OpenIsSafe(q, Sample(c, k)); }
    }
  }

  lemma SilenceAt(c: Config, probs: seq<real>, i: nat)
    requires i < |probs| && probs[i] < c.negThreshold
    ensures AtSilence(c, probs, Sample(c, i))
  {
    assert Sample(c, i) == Sample(c, i) && probs[i] < c.negThreshold;
  }

  lemma SafeStill(r: Scanned, q: Scanned, x: int)
    requires Safe(r, x) && q.speeches == r.speeches && q.dropped == r.dropped
    requires q.st.isSpeech == r.st.isSpeech && q.st.currStart == r.st.currStart
    ensures Safe(q, x)
  {
  }

  lemma OpenIsSafe(r: Scanned, x: int)
    requires r.st.isSpeech && r.st.currStart <= x
    ensures Safe(r, x)
  {
  }

  lemma PausedInv(c: Config, probs: seq<real>, i: nat, st: State)
    requires c.window > 0 && i < |probs| && probs[i] < c.negThreshold
    requires PauseInv(c, probs, i, st) && AtSilence(c, probs, Sample(c, i)) && i > 0
    requires probs[i] >= c.threshold ==> st.tempEnd == 0
    requires 0 <= st.nextStart <= Sample(c, i)
    requires st.prevEnd == 0 ==> st.nextStart == 0
    requires st.nextStart < st.prevEnd ==> st.tempEnd == st.prevEnd
    ensures PauseInv(c, probs, i + 1, Paused(c, Sample(c, i), st))
  {
    if st.tempEnd == 0 {
      QuietBehind(c, probs, i);
    } else {
      QuietNext(c, probs, st.tempEnd + 1, i);
    }
  }

  /** The pause is long enough. */
  lemma EndKeepsInv(c: Config, probs: seq<real>, i: nat, r: Scanned)
    requires c.window > 0 && i < |probs| && Inv(c, probs, i + 1, r) && r.st.isSpeech && r.st.tempEnd != 0
    requires Sample(c, i) - r.st.tempEnd >= c.minSilence
    ensures Inv(c, probs, i + 1, Ended(c, r))
  {
    SortedPush(r.speeches, Segment(r.st.currStart, r.st.tempEnd), Sample(c, i + 1), Sample(c, i + 1));
    EndIsQuiet(c, probs, i, r.st);
    EndSafe(c, probs, i, r);
  }

  lemma EndIsQuiet(c: Config, probs: seq<real>, i: nat, st: State)
    requires PauseInv(c, probs, i + 1, st) && st.tempEnd != 0 && Sample(c, i) - st.tempEnd >= c.minSilence
    ensures AtSilence(c, probs, st.tempEnd) && Quiet(c, probs, st.tempEnd + 1, st.tempEnd + c.minSilence)
  {
    assert Sample(c, i) <= Sample(c, i + 1);
  }

  lemma EndSafe(c: Config, probs: seq<real>, i: nat, r: Scanned)
    requires c.window > 0 && CoverInv(c, probs, i + 1, r) && r.st.isSpeech && r.st.tempEnd != 0
    ensures forall k: nat :: k < i + 1 && Speech(c, probs, k) ==> Safe(Ended(c, r), Sample(c, k))
  {
    hide InSome, EndsAt, AllJustified, AllBursts, AtSpeech, AtSilence, Speech;
    forall k: nat | k < i + 1 && Speech(c, probs, k) ensures Safe(Ended(c, r), Sample(c, k)) {
      assert Safe(r, Sample(c, k));
      SampleUp(c, k, i + 1);
      PushSafe(r, Segment(r.st.currStart, r.st.tempEnd), Closed(r.st), Sample(c, k));
    }
  }

  /** One window keeps the invariant, whichever branches it takes. */
  lemma WindowKeepsInv(c: Config, probs: seq<real>, i: nat, r: Scanned)
    requires c.window > 0 && i < |probs| && Inv(c, probs, i, r)
    ensures Inv(c, probs, i + 1, ScanWindow(c, Sample(c, i), probs[i], r))
  {
    hide Inv, Split, Sample;
    var x := Sample(c, i);
    ResumedKeepsInv(c, probs, i, r);
    var q := r.(st := Resumed(c, x, probs[i], r.st));
    if probs[i] >= c.threshold && !q.st.isSpeech {
      StartKeepsInv(c, probs, i, q);
    } else if TooLong(c, x, q.st) && q.st.prevEnd == 0 {
      CutKeepsInv(c, probs, i, q);
    } else {
      if TooLong(c, x, q.st) { SplitKeepsInv(c, probs, i, q); }
      var u := if TooLong(c, x, q.st) then Split(x, q) else q;
      if probs[i] < c.negThreshold && u.st.isSpeech {
        PauseKeepsInv(c, probs, i, u);
        var p := u.(st := Paused(c, x, u.st));
        if x - p.st.tempEnd >= c.minSilence { EndKeepsInv(c, probs, i, p); }
      } else {
        PassKeepsInv(c, probs, i, u);
      }
    }
  }

  lemma {:induction false} ScanKeepsInv(c: Config, probs: seq<real>, n: nat)
    requires c.window > 0 && n <= |probs|
    ensures Inv(c, probs, n, ScanTo(c, probs, n))
  {
    hide Inv, ScanWindow, Sample;
    if n == 0 {
      StartInv(c, probs);
    } else {
      ScanKeepsInv(c, probs, n - 1);
      WindowKeepsInv(c, probs, n - 1, ScanTo(c, probs, n - 1));
    }
  }

  lemma StartInv(c: Config, probs: seq<real>)
    ensures Inv(c, probs, 0, Scanned(CLOSED, [], []))
  {
  }

  // ---- the result ----

  /** For all configurations: ordered segments inside the audio, each with a reason to start and
      to end, and bursts that are bursts. */
  lemma ScanIsRight(c: Config, probs: seq<real>)
    requires c.window > 0
    ensures var r := ScanResult(c, probs);
            Sorted(r.speeches, Sample(c, |probs|)) && AllJustified(c, probs, r.speeches) && AllBursts(c, probs, r.dropped)
  {
    ScanKeepsInv(c, probs, |probs|);
    var r := ScanTo(c, probs, |probs|);
    if r.st.isSpeech {
      SortedPush(r.speeches, Segment(r.st.currStart, Sample(c, |probs|)), Sample(c, |probs|), Sample(c, |probs|));
    }
  }

  /** Speech is in a segment, was the place of a cut, or was part of a burst. */
  ghost predicate Caught(c: Config, r: Scanned, x: int) {
    InSome(r.speeches, x) || CutAt(c, r.speeches, x) || InSome(r.dropped, x)
  }

  ghost predicate Covers(c: Config, probs: seq<real>, r: Scanned) {
    forall k: nat :: Speech(c, probs, k) ==> Caught(c, r, Sample(c, k))
  }

  /** Speech that counts as silence as well, in a window with which a segment or burst ended. */
  ghost predicate Lost(c: Config, probs: seq<real>, r: Scanned, k: nat) {
    && k < |probs| && probs[k] < c.negThreshold
    && (EndsAt(r.speeches, Sample(c, k)) || EndsAt(r.dropped, Sample(c, k)))
  }

  lemma FinishSafe(c: Config, probs: seq<real>, r: Scanned, k: nat)
    requires c.window > 0 && Inv(c, probs, |probs|, r) && Speech(c, probs, k)
    ensures var q := Finish(c, Sample(c, |probs|), r); Safe(q.(st := CLOSED), Sample(c, k))
  {
    hide InSome, EndsAt, AllJustified, AllBursts, AtSpeech, AtSilence;
    assert Safe(r, Sample(c, k));
    SampleUp(c, k, |probs|);
    PushSafe(r, Segment(r.st.currStart, Sample(c, |probs|)), CLOSED, Sample(c, k));
  }

  lemma SameWindow(c: Config, j: nat, k: nat)
    requires c.window > 0 && Sample(c, j) == Sample(c, k)
    ensures j == k
  {
    if j < k { SampleUp(c, j, k); }
    if k < j { SampleUp(c, k, j); }
  }

  /** A window with which a segment ended counts as silence, or the segment was cut there. */
  lemma EndIsSilentOrCut(c: Config, probs: seq<real>, s: seq<Segment>, k: nat)
    requires c.window > 0 && k < |probs| && AllJustified(c, probs, s) && EndsAt(s, Sample(c, k))
    ensures probs[k] < c.negThreshold || CutAt(c, s, Sample(c, k))
  {
    var j :| 0 <= j < |s| && s[j].end == Sample(c, k);
    assert Justified(c, probs, s[j]);
    SampleUp(c, k, |probs|);
    if AtSilence(c, probs, s[j].end) {
      var l: nat :| Sample(c, l) == s[j].end && l < |probs| && probs[l] < c.negThreshold;
      SameWindow(c, l, k);
    }
  }

  lemma BurstEndIsSilent(c: Config, probs: seq<real>, s: seq<Segment>, k: nat)
    requires c.window > 0 && k < |probs| && AllBursts(c, probs, s) && EndsAt(s, Sample(c, k))
    ensures probs[k] < c.negThreshold
  {
    var j :| 0 <= j < |s| && s[j].end == Sample(c, k);
    assert Burst(c, probs, s[j]);
    SampleUp(c, k, |probs|);
    var l: nat :| Sample(c, l) == s[j].end && l < |probs| && probs[l] < c.negThreshold;
    SameWindow(c, l, k);
  }

  /** For all configurations, the only speech that can be missed is a window that counts as silence
      as well and ends a segment or burst. */
  lemma CaughtOrLost(c: Config, probs: seq<real>, k: nat)
    requires c.window > 0 && Speech(c, probs, k)
    ensures var r := ScanResult(c, probs); Caught(c, r, Sample(c, k)) || Lost(c, probs, r, k)
  {
    var r := ScanResult(c, probs);
    ScanKeepsInv(c, probs, |probs|);
    ScanIsRight(c, probs);
    FinishSafe(c, probs, ScanTo(c, probs, |probs|), k);
    hide Inv, ScanResult, InSome, EndsAt, CutAt, AllJustified, AllBursts;
    if EndsAt(r.speeches, Sample(c, k)) { EndIsSilentOrCut(c, probs, r.speeches, k); }
    if EndsAt(r.dropped, Sample(c, k)) { BurstEndIsSilent(c, probs, r.dropped, k); }
  }
}
