/** When the length of the final segments is bounded at all, whatever the audio. */
module VadBound {
  import opened VadScan
  import opened VadSegments
  import opened VadLength

  ghost predicate AreProbabilities(probs: seq<real>) {
    forall i :: 0 <= i < |probs| ==> 0.0 <= probs[i] <= 1.0
  }

  /** No final segment is longer, for no audio. */
  ghost predicate BoundedBy(c: Config, bound: nat) {
    forall probs :: AreProbabilities(probs) ==> AllWithin(FinalSegments(c, probs), bound)
  }

  ghost predicate Bounded(c: Config) {
    exists bound: nat :: BoundedBy(c, bound)
  }

  // ---- when raw segments touch ----

  /** No segment is cut at the very window with which speech goes on: no window counts as speech and as
      silence, or none is silent, or every pause ends its segment. */
  predicate Calm(c: Config) {
    c.negThreshold <= c.threshold || c.threshold <= 0.0 || c.minSilence <= c.window
  }

  /** No segment that goes on from such a cut gets long enough for another. */
  predicate Brief(c: Config) {
    c.maxSpeech < 5 * c.window
  }

  predicate Touch(s: seq<Segment>, j: nat)
    requires 0 < j < |s|
  {
    s[j].start == s[j - 1].end
  }

  /** Segment `j` is a window after the one before, or touches it. */
  predicate GapOk(c: Config, s: seq<Segment>, j: nat)
    requires 0 < j < |s|
  {
    && (s[j].start >= s[j - 1].end + c.window || (Touch(s, j) && !Calm(c)))
    && (Brief(c) && j + 1 < |s| ==> !(Touch(s, j) && Touch(s, j + 1)))
  }

  ghost predicate Gaps(c: Config, s: seq<Segment>) {
    forall j :: 0 < j < |s| ==> GapOk(c, s, j)
  }

  predicate Joins(s: seq<Segment>, start: int) {
    s != [] && start == s[|s| - 1].end
  }

  /** A segment may start here after the others. */
  predicate Starts(c: Config, s: seq<Segment>, start: int) {
    s != [] ==>
      && (start >= s[|s| - 1].end + c.window || (Joins(s, start) && !Calm(c)))
      && (Brief(c) && Joins(s, start) && |s| > 1 ==> !Touch(s, |s| - 1))
  }

  /** A window after the last segment. */
  predicate After(c: Config, s: seq<Segment>, x: int) {
    s != [] ==> s[|s| - 1].end + c.window <= x
  }

  lemma GapsPush(c: Config, s: seq<Segment>, y: Segment)
    requires Gaps(c, s) && Starts(c, s, y.start)
    ensures Gaps(c, s + [y])
  {
    forall j | 0 < j < |s + [y]| ensures GapOk(c, s + [y], j) {
      if j < |s| { assert GapOk(c, s, j); }
    }
  }

  // ---- the open segment ----

  predicate CalmPause(c: Config, st: State) {
    && (c.negThreshold <= c.threshold && st.tempEnd != 0 ==> st.nextStart < st.tempEnd)
    && (c.threshold <= 0.0 || c.minSilence <= c.window ==> st.prevEnd == 0)
    && (Calm(c) && st.prevEnd != 0 ==> st.nextStart != st.prevEnd)
  }

  /** How late a segment that touches the one before can have its pauses. */
  predicate BriefPause(c: Config, st: State) {
    && (st.tempEnd != 0 ==> st.tempEnd >= st.currStart + 2 * c.window)
    && (st.prevEnd != 0 ==> st.prevEnd >= st.currStart + 2 * c.window && st.nextStart != st.prevEnd)
    && (st.prevEnd != 0 && st.nextStart >= st.prevEnd ==> st.nextStart >= st.currStart + 4 * c.window)
  }

  /** Pauses and restarts are windows apart, but for a restart with which the latest pause began. */
  predicate PauseGaps(c: Config, x: int, s: seq<Segment>, st: State) {
    && (st.tempEnd != 0 ==> st.nextStart <= st.tempEnd)
    && (st.prevEnd != 0 ==> st.prevEnd <= x - 2 * c.window)
    && (st.prevEnd != 0 && st.nextStart > st.prevEnd ==> st.nextStart >= st.prevEnd + c.window)
    && CalmPause(c, st)
    && (Joins(s, st.currStart) && Brief(c) ==> BriefPause(c, st) && x >= st.currStart + 2 * c.window)
  }

  ghost predicate GapInv(c: Config, i: nat, r: Scanned) {
    && Gaps(c, r.speeches)
    && if r.st.isSpeech then Starts(c, r.speeches, r.st.currStart) && PauseGaps(c, Sample(c, i), r.speeches, r.st)
       else After(c, r.speeches, Sample(c, i))
  }

  /** The bounds in the middle of the window at `x`. */
  predicate MidPause(c: Config, x: int, prob: real, st: State) {
    && x >= c.window && st.currStart <= x && st.tempEnd <= x - c.window && st.nextStart <= x
    && (c.negThreshold <= c.threshold && prob < c.negThreshold ==> st.nextStart < x)
    && (c.threshold <= 0.0 ==> st.tempEnd == 0) && PauseOrder(st)
  }

  ghost predicate MidGaps(c: Config, x: int, prob: real, r: Scanned) {
    && Gaps(c, r.speeches)
    && if r.st.isSpeech then
         Starts(c, r.speeches, r.st.currStart) && PauseGaps(c, x, r.speeches, r.st) && MidPause(c, x, prob, r.st)
       else After(c, r.speeches, x) && r.st.tempEnd == r.st.prevEnd == r.st.nextStart == 0
  }

  lemma ResumedGaps(c: Config, i: nat, x: int, prob: real, r: Scanned, q: Scanned)
    requires c.window > 0 && x == Sample(c, i) && q == r.(st := Resumed(c, x, prob, r.st)) && prob >= 0.0
    requires GapInv(c, i, r) && LengthInv(c, i, r) && MidOk(c, x, q)
    ensures MidGaps(c, x, prob, q)
  {
    hide Gaps, AllWithin, Sample, Starts, Touch;
  }

  lemma StartGaps(c: Config, i: nat, x: int, prob: real, r: Scanned)
    requires c.window > 0 && x == Sample(c, i) && MidGaps(c, x, prob, r) && !r.st.isSpeech
    ensures GapInv(c, i + 1, r.(st := Started(x, r.st)))
  {
    hide Gaps, Touch;
  }

  /** Cut without a pause: the next segment is a window later at least. */
  lemma CutGaps(c: Config, i: nat, x: int, prob: real, r: Scanned)
    requires c.window > 0 && x == Sample(c, i) && MidGaps(c, x, prob, r) && r.st.isSpeech && r.st.prevEnd == 0
    ensures GapInv(c, i + 1, Split(x, r))
  {
    hide Gaps, Touch;
    GapsPush(c, r.speeches, Segment(r.st.currStart, x));
  }

  /** Cut at the last pause. */
  lemma SplitGaps(c: Config, x: int, prob: real, r: Scanned)
    requires c.window > 0 && MidGaps(c, x, prob, r) && r.st.isSpeech && r.st.prevEnd != 0
    ensures MidGaps(c, x, prob, Split(x, r)) && Split(x, r).st.tempEnd == 0
  {
    hide Gaps;
    GapsPush(c, r.speeches, Segment(r.st.currStart, r.st.prevEnd));
  }

  /** A pause begins, goes on or ends the segment. */
  lemma SilenceGaps(c: Config, i: nat, x: int, prob: real, r: Scanned)
    requires c.window > 0 && x == Sample(c, i) && MidGaps(c, x, prob, r) && r.st.isSpeech && prob < c.negThreshold
    requires r.st.tempEnd == 0 || x - r.st.currStart <= c.maxSpeech
    ensures GapInv(c, i + 1, Silence(c, x, r))
  {
    hide Gaps, Touch;
    GapsPush(c, r.speeches, Segment(r.st.currStart, Paused(c, x, r.st).tempEnd));
  }

  lemma PassGaps(c: Config, i: nat, x: int, prob: real, r: Scanned)
    requires c.window > 0 && x == Sample(c, i) && MidGaps(c, x, prob, r)
    ensures GapInv(c, i + 1, r)
  {
    hide Gaps, Touch;
  }

  lemma MidKeepsGaps(c: Config, i: nat, x: int, prob: real, r: Scanned, q: Scanned)
    requires c.window > 0 && x == Sample(c, i) && q == r.(st := Resumed(c, x, prob, r.st)) && MidGaps(c, x, prob, q)
    ensures GapInv(c, i + 1, ScanWindow(c, x, prob, r))
  {
    hide GapInv, MidGaps, Resumed, Split, Silence;
    if prob >= c.threshold && !q.st.isSpeech {
      StartGaps(c, i, x, prob, q);
    } else if TooLong(c, x, q.st) && q.st.prevEnd == 0 {
      CutGaps(c, i, x, prob, q);
    } else {
      if TooLong(c, x, q.st) { SplitGaps(c, x, prob, q); }
      var u := if TooLong(c, x, q.st) then Split(x, q) else q;
      if prob < c.negThreshold && u.st.isSpeech { SilenceGaps(c, i, x, prob, u); } else { PassGaps(c, i, x, prob, u); }
    }
  }

  lemma {:induction false} ScanKeepsGaps(c: Config, probs: seq<real>, n: nat)
    requires c.window > 0 && AreProbabilities(probs) && n <= |probs|
    ensures GapInv(c, n, ScanTo(c, probs, n))
  {
    hide Inv, LengthInv, MidGaps, MidOk, PauseGaps, ScanWindow, Sample, Resumed;
    if n > 0 {
      var r, x := ScanTo(c, probs, n - 1), Sample(c, n - 1);
      var q := r.(st := Resumed(c, x, probs[n - 1], r.st));
      ScanKeepsGaps(c, probs, n - 1);
      ScanKeepsInv(c, probs, n - 1);
      ScanKeepsLength(c, probs, n - 1);
      ResumedIsMid(c, probs, n - 1, r);
      ResumedGaps(c, n - 1, x, probs[n - 1], r, q);
      MidKeepsGaps(c, n - 1, x, probs[n - 1], r, q);
    }
  }

  lemma RawGaps(c: Config, probs: seq<real>)
    requires c.window > 0 && AreProbabilities(probs)
    ensures Gaps(c, ScanResult(c, probs).speeches)
  {
    hide Gaps, Sample, PauseGaps, Starts;
    ScanKeepsGaps(c, probs, |probs|);
    ScanKeepsInv(c, probs, |probs|);
    var r := ScanTo(c, probs, |probs|);
    if r.st.isSpeech { GapsPush(c, r.speeches, Segment(r.st.currStart, Sample(c, |probs|))); }
  }

  // ---- wide windows: two segments are merged at most ----

  lemma ShortChains(c: Config, s: seq<Segment>, bound: nat)
    requires Gaps(c, s) && c.window >= MERGE_GAP && (Calm(c) || Brief(c)) && AllWithin(s, bound)
    ensures NoLongChain(s, 2 * bound)
  {
    forall i: nat, j: nat | Chain(s, i, j) ensures ChainWithin(s, i, j, 2 * bound) {
      assert j > 1 ==> GapOk(c, s, j - 1);
      assert i < j - 1 ==> Near(s, j - 1);
      if i < j { assert Near(s, j) && GapOk(c, s, j); }
    }
  }

  lemma {:induction false} KeptWithin(s: seq<Segment>, least: int, bound: int)
    requires AllWithin(s, bound)
    ensures AllWithin(Kept(s, least), bound)
  {
    if s != [] {
      KeptWithin(s[1..], least, bound);
      WithinCons(s[0], Kept(s[1..], least), bound);
    }
  }

  lemma SortedHead(s: seq<Segment>, limit: int)
    requires Sorted(s, limit) && s != []
    ensures Sorted(s[1..], limit) && 0 <= s[0].start <= s[0].end <= limit && (|s| > 1 ==> s[0].end <= s[1..][0].start)
  {
  }

  lemma {:induction false} KeptSorted(s: seq<Segment>, least: int, limit: int)
    requires Sorted(s, limit)
    ensures Sorted(Kept(s, least), limit)
    ensures Kept(s, least) != [] ==> s != [] && Kept(s, least)[0].start >= s[0].start
  {
    hide Sorted;
    if s != [] {
      var rest := Kept(s[1..], least);
      SortedHead(s, limit);
      KeptSorted(s[1..], least, limit);
      assert [] + rest == rest;
      if s[0].end - s[0].start >= least { SortedCons(s[0], rest, limit); }
    }
  }

  lemma PaddedWithin(c: Config, probs: seq<real>, bound: int)
    requires c.window > 0 && AllWithin(Merged(ScanResult(c, probs).speeches), bound)
    ensures AllWithin(FinalSegments(c, probs), bound + 2 * c.pad)
  {
    var raw, limit := ScanResult(c, probs).speeches, Sample(c, |probs|);
    hide ScanResult, Merged, Kept, Sorted, Padded;
    ScanIsRight(c, probs);
    MergedIsRight(raw, limit);
    KeptSorted(Merged(raw), c.minSpeech, limit);
    KeptWithin(Merged(raw), c.minSpeech, bound);
    var kept := Kept(Merged(raw), c.minSpeech);
    forall j | 0 <= j < |kept|
      ensures Padded(kept, j, c.pad, limit).end - Padded(kept, j, c.pad, limit).start <= bound + 2 * c.pad
    {
      PaddedIsRight(kept, j, c.pad, limit);
    }
  }

  lemma WideWindowsBound(c: Config)
    requires c.window >= MERGE_GAP && (Calm(c) || Brief(c))
    ensures BoundedBy(c, 2 * (c.maxSpeech + c.window) + 2 * c.pad)
  {
    hide AllWithin, Gaps, NoLongChain, Sorted, ScanResult, FinalSegments, Merged;
    var bound := c.maxSpeech + c.window;
    forall probs | AreProbabilities(probs) ensures AllWithin(FinalSegments(c, probs), 2 * bound + 2 * c.pad) {
      var raw := ScanResult(c, probs).speeches;
      RawIsBounded(c, probs);
      RawGaps(c, probs);
      ShortChains(c, raw, bound);
      ScanIsRight(c, probs);
      MergedWithinIff(raw, 2 * bound, Sample(c, |probs|));
      PaddedWithin(c, probs, 2 * bound);
    }
  }

  // ---- no speech at all ----

  lemma {:induction false} NeverStarts(c: Config, probs: seq<real>, n: nat)
    requires AreProbabilities(probs) && c.threshold > 1.0 && n <= |probs|
    ensures ScanTo(c, probs, n) == Scanned(CLOSED, [], [])
  {
    if n > 0 { NeverStarts(c, probs, n - 1); }
  }

  lemma SilenceIsBounded(c: Config)
    requires c.threshold > 1.0
    ensures BoundedBy(c, 0)
  {
    forall probs | AreProbabilities(probs) ensures AllWithin(FinalSegments(c, probs), 0) {
      NeverStarts(c, probs, |probs|);
    }
  }

  // ---- endless speech, cut where it goes on ----

  /** Windows that count as speech and as silence, pauses of more than a window, and segments of five. */
  predicate Endless(c: Config) {
    && c.minSilenceAtMax < c.window < c.minSilence && 0.0 < c.threshold < c.negThreshold <= 1.0
    && 5 * c.window <= c.maxSpeech
  }

  function Run(c: Config, probs: seq<real>): Scanned { ScanTo(c, probs, |probs|) }

  lemma {:induction false} ScanPrefix(c: Config, probs: seq<real>, prob: real, n: nat)
    requires n <= |probs|
    ensures ScanTo(c, probs + [prob], n) == ScanTo(c, probs, n)
  {
    hide ScanWindow, Sample;
    if n > 0 { ScanPrefix(c, probs, prob, n - 1); }
  }

  lemma RunMore(c: Config, probs: seq<real>, prob: real)
    ensures Run(c, probs + [prob]) == ScanWindow(c, Sample(c, |probs|), prob, Run(c, probs))
    ensures Sample(c, |probs + [prob]|) == Sample(c, |probs|) + c.window
    ensures AreProbabilities(probs) && 0.0 <= prob <= 1.0 ==> AreProbabilities(probs + [prob])
  {
    hide ScanWindow;
    ScanPrefix(c, probs, prob, |probs|);
  }

  /** Segments that touch, the first one from zero, and the open one goes on at `start`. */
  ghost predicate Chained(s: seq<Segment>, start: int) {
    && (if s == [] then start == 0 else s[0].start == 0 && s[|s| - 1].end == start)
    && forall j :: 0 < j < |s| ==> Touch(s, j)
  }

  lemma ChainedPush(s: seq<Segment>, start: int, end: int)
    requires Chained(s, start)
    ensures Chained(s + [Segment(start, end)], end)
  {
    var t := s + [Segment(start, end)];
    forall j | 0 < j < |t| ensures Touch(t, j) {
      if j < |s| { assert Touch(s, j); }
    }
  }

  /** A pause began with the last window, late enough for the segment to have touched another one and
      early enough for one more pause. */
  ghost predicate Pausing(c: Config, probs: seq<real>) {
    var r, b := Run(c, probs), Sample(c, |probs|) - c.window;
    && AreProbabilities(probs) && r.st == State(true, true, b, 0, 0, r.st.currStart) && Chained(r.speeches, r.st.currStart)
    && r.st.currStart >= 0 && r.st.currStart + 2 * c.window <= b <= r.st.currStart + c.maxSpeech - 3 * c.window
  }

  /** The window with which speech went on began the latest pause: there the segment will be cut. */
  ghost predicate Waiting(c: Config, probs: seq<real>, b: int, was: Scanned) {
    var r, x := Run(c, probs), Sample(c, |probs|);
    && AreProbabilities(probs) && r.speeches == was.speeches && r.st.tempEnd in {0, b}
    && r.st == State(true, true, r.st.tempEnd, b, b, was.st.currStart)
    && b + 2 * c.window <= x && x - was.st.currStart <= c.maxSpeech + c.window
  }

  /** Silence, a window of both kinds, silence. */
  lemma PauseTwice(c: Config, probs: seq<real>) returns (more: seq<real>)
    requires Endless(c) && Pausing(c, probs)
    ensures Waiting(c, more, Sample(c, |probs|) + c.window, Run(c, probs))
  {
    hide Sample, Run;
    var both := c.threshold;
    RunMore(c, probs, 0.0);
    RunMore(c, probs + [0.0], both);
    RunMore(c, probs + [0.0] + [both], 0.0);
    more := probs + [0.0] + [both] + [0.0];
  }

  lemma {:induction false} TalkOn(c: Config, probs: seq<real>, b: int, was: Scanned) returns (more: seq<real>)
    requires Endless(c) && Waiting(c, probs, b, was) && b > 0
    ensures Waiting(c, more, b, was) && Sample(c, |more|) - was.st.currStart > c.maxSpeech
    decreases was.st.currStart + c.maxSpeech + c.window - Sample(c, |probs|)
  {
    hide Sample, Run;
    more := probs;
    if Sample(c, |probs|) - was.st.currStart <= c.maxSpeech {
      RunMore(c, probs, 1.0);
      more := TalkOn(c, probs + [1.0], b, was);
    }
  }

  /** The cut, with a window that begins the next pause. */
  lemma CutWhileBoth(c: Config, probs: seq<real>, b: int, was: Scanned)
    requires Endless(c) && Waiting(c, probs, b, was) && Chained(was.speeches, was.st.currStart) && was.st.currStart >= 0
    requires Sample(c, |probs|) - was.st.currStart > c.maxSpeech && b >= was.st.currStart + 4 * c.window
    ensures var more := probs + [c.threshold]; Pausing(c, more) && Run(c, more).st.currStart == b
  {
    hide Sample, Run, Chained;
    RunMore(c, probs, c.threshold);
    ChainedPush(was.speeches, was.st.currStart, b);
  }

  /** One more segment that touches the one before. */
  lemma OneMoreSegment(c: Config, probs: seq<real>) returns (more: seq<real>)
    requires Endless(c) && Pausing(c, probs)
    ensures Pausing(c, more) && Run(c, more).st.currStart > Run(c, probs).st.currStart
  {
    hide Sample, Run, Waiting, ScanWindow;
    var was, b := Run(c, probs), Sample(c, |probs|) + c.window;
    var twice := PauseTwice(c, probs);
    var late := TalkOn(c, twice, b, was);
    CutWhileBoth(c, late, b, was);
    more := late + [c.threshold];
  }

  lemma FirstPause(c: Config)
    requires Endless(c)
    ensures Pausing(c, [1.0] + [1.0] + [c.threshold])
  {
    hide Sample, Run, ScanWindow;
    var none: seq<real> := [];
    assert none + [1.0] == [1.0];
    RunMore(c, none, 1.0);
    RunMore(c, [1.0], 1.0);
    RunMore(c, [1.0] + [1.0], c.threshold);
    FirstWindows(c);
  }

  lemma FirstWindows(c: Config)
    requires Endless(c)
    ensures Run(c, []) == Scanned(CLOSED, [], []) && Sample(c, 0) == 0
    ensures var open := Scanned(State(true, true, 0, 0, 0, 0), [], []);
            && ScanWindow(c, 0, 1.0, Scanned(CLOSED, [], [])) == open
            && ScanWindow(c, c.window, 1.0, open) == open
            && ScanWindow(c, c.window + c.window, c.threshold, open) == open.(st := open.st.(tempEnd := c.window + c.window))
  {
  }

  lemma {:induction false} ManySegments(c: Config, n: nat) returns (probs: seq<real>)
    requires Endless(c)
    ensures Pausing(c, probs) && Run(c, probs).st.currStart >= n
  {
    hide Run, ScanWindow;
    if n == 0 {
      FirstPause(c);
      probs := [1.0] + [1.0] + [c.threshold];
    } else {
      var fewer := ManySegments(c, n - 1);
      probs := OneMoreSegment(c, fewer);
    }
  }

  lemma {:induction false} ChainedMerges(s: seq<Segment>, end: int)
    requires Chained(s, end) && s != []
    ensures Merged(s) == [Segment(0, end)]
    decreases |s|
  {
    if |s| > 1 {
      assert Touch(s, 1);
      var t := Joined(s);
      forall j | 0 < j < |t| ensures Touch(t, j) {
        assert Touch(s, j + 1);
      }
      ChainedMerges(t, end);
    }
  }

  lemma EndlessExceeds(c: Config, bound: nat)
    requires Endless(c)
    ensures !BoundedBy(c, bound)
  {
    hide ScanTo, Merged, FinalSegments;
    var probs := ManySegments(c, bound + c.minSpeech + 1);
    var r, length := Run(c, probs), Sample(c, |probs|);
    var raw := ScanResult(c, probs).speeches;
    ChainedPush(r.speeches, r.st.currStart, length);
    ChainedMerges(raw, raw[|raw| - 1].end);
    ScanIsRight(c, probs);
    LongIsFinal(c, probs, raw[|raw| - 1].end);
    assert !AllWithin(FinalSegments(c, probs), bound);
  }

  // ---- the exact condition ----

  /** The final segments are bounded in length over all audio exactly when no probability reaches the
      threshold, or windows are as wide as the gaps that are merged and one of these holds: no window
      counts as speech and as silence, none is silent, a pause of one window ends a segment, or
      segments are shorter than five windows. */
  lemma FinalBoundIff(p: Params, window: nat)
    requires window > 0 && p.maxSpeechS >= 0.0
    ensures var c := Configure(p, window);
            Bounded(c) <==> p.threshold > 1.0 || (window >= MERGE_GAP && (Calm(c) || Brief(c)))
  {
    hide BoundedBy;
    var c := Configure(p, window);
    if p.threshold > 1.0 {
      SilenceIsBounded(c);
    } else if window < MERGE_GAP {
      forall bound: nat ensures !BoundedBy(c, bound) {
        Exceeds(p, window, bound);
      }
    } else if Calm(c) || Brief(c) {
      WideWindowsBound(c);
    } else {
      forall bound: nat ensures !BoundedBy(c, bound) {
        EndlessExceeds(c, bound);
      }
    }
  }

  lemma Exceeds(p: Params, window: nat, bound: nat)
    requires 0 < window < MERGE_GAP && p.maxSpeechS >= 0.0 && p.threshold <= 1.0
    ensures !BoundedBy(Configure(p, window), bound)
  {
    hide FinalSegments, Configure;
    var probs := NoFinalBound(p, window, bound);
    assert AreProbabilities(probs);
    assert !AllWithin(FinalSegments(Configure(p, window), probs), bound);
  }
}
