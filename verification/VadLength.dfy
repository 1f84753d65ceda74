/** How long segments get: the scan bounds them, merging does not. */
module VadLength {
  import opened Arith
  import opened VadScan
  import opened VadSegments

  // ---- raw segments ----

  ghost predicate AllWithin(s: seq<Segment>, bound: int) {
    forall j :: 0 <= j < |s| ==> s[j].end - s[j].start <= bound
  }

  /** How far the open segment, its pause and its restart are from window `i`. */
  ghost predicate LengthInv(c: Config, i: nat, r: Scanned) {
    && AllWithin(r.speeches, c.maxSpeech + c.window)
    && (r.st.isSpeech ==> StateLengths(c, Sample(c, i), r.st))
  }

  predicate StateLengths(c: Config, x: int, st: State) {
    && c.window <= x - st.currStart <= c.maxSpeech + c.window
    && st.tempEnd <= x - c.window && st.prevEnd <= x - c.window && st.nextStart <= x - c.window
    && (st.prevEnd != 0 && st.nextStart >= st.prevEnd ==> st.nextStart >= st.currStart + c.window)
  }

  lemma WithinPush(s: seq<Segment>, y: Segment, bound: int)
    requires AllWithin(s, bound) && y.end - y.start <= bound
    ensures AllWithin(s + [y], bound)
  {
  }

  /** The same in the middle of window `i`. */
  predicate MidLengths(c: Config, x: int, st: State) {
    && 0 <= x - st.currStart <= c.maxSpeech + c.window
    && st.tempEnd <= x - c.window && st.prevEnd <= x - c.window && st.nextStart <= x
    && (st.prevEnd != 0 && st.nextStart >= st.prevEnd ==> st.nextStart >= st.currStart + c.window)
  }

  lemma SplitKeepsLength(c: Config, x: int, r: Scanned)
    requires AllWithin(r.speeches, c.maxSpeech + c.window) && MidLengths(c, x, r.st) && TooLong(c, x, r.st)
    requires r.st.prevEnd != 0 ==> r.st.prevEnd >= r.st.currStart && r.st.prevEnd >= 0 && x >= 0
    ensures var q := Split(x, r);
            AllWithin(q.speeches, c.maxSpeech + c.window)
            && (q.st.isSpeech ==> 0 <= x - q.st.currStart <= c.maxSpeech && q.st.tempEnd == q.st.prevEnd == q.st.nextStart == 0)
  {
    if r.st.prevEnd != 0 {
      WithinPush(r.speeches, Segment(r.st.currStart, r.st.prevEnd), c.maxSpeech + c.window);
    } else {
      WithinPush(r.speeches, Segment(r.st.currStart, x), c.maxSpeech + c.window);
    }
  }

  /** Not too long in the middle of a window is long enough a bound for its end. */
  lemma SilenceKeepsLength(c: Config, x: int, r: Scanned)
    requires AllWithin(r.speeches, c.maxSpeech + c.window) && x - r.st.currStart <= c.maxSpeech && r.st.isSpeech
    requires MidLengths(c, x, r.st) && x >= c.window
    requires r.st.tempEnd >= 0 && (r.st.prevEnd == 0 ==> r.st.nextStart == 0)
    requires r.st.nextStart < r.st.prevEnd ==> r.st.tempEnd == r.st.prevEnd
    ensures var q := Silence(c, x, r);
            AllWithin(q.speeches, c.maxSpeech + c.window) && (q.st.isSpeech ==> StateLengths(c, x + c.window, q.st))
  {
    var p := Paused(c, x, r.st);
    WithinPush(r.speeches, Segment(r.st.currStart, p.tempEnd), c.maxSpeech + c.window);
  }

  /** What a window finds once speech has been resumed. */
  ghost predicate MidOk(c: Config, x: int, r: Scanned) {
    && x >= 0 && AllWithin(r.speeches, c.maxSpeech + c.window)
    && (r.st.isSpeech ==> x >= c.window && MidLengths(c, x, r.st) && PauseOrder(r.st))
    && (!r.st.isSpeech ==> r.st.tempEnd == r.st.prevEnd == r.st.nextStart == 0)
  }

  predicate PauseOrder(st: State) {
    && st.tempEnd >= 0 && (st.prevEnd == 0 ==> st.nextStart == 0)
    && (st.nextStart < st.prevEnd ==> st.tempEnd == st.prevEnd)
    && (st.prevEnd != 0 ==> st.prevEnd >= st.currStart && st.prevEnd >= 0)
  }

  lemma ResumedIsMid(c: Config, probs: seq<real>, i: nat, r: Scanned)
    requires c.window > 0 && i < |probs| && Inv(c, probs, i, r) && LengthInv(c, i, r)
    ensures MidOk(c, Sample(c, i), r.(st := Resumed(c, Sample(c, i), probs[i], r.st)))
  {
    hide CoverInv, AllWithin, Sorted, Sample;
    if i > 0 { SampleUp(c, 0, i); }
    ResumedKeepsInv(c, probs, i, r);
  }

  lemma MidKeepsLength(c: Config, i: nat, x: int, prob: real, r: Scanned, q: Scanned)
    requires c.window > 0 && x == Sample(c, i) && q == r.(st := Resumed(c, x, prob, r.st)) && MidOk(c, x, q)
    ensures LengthInv(c, i + 1, ScanWindow(c, x, prob, r))
  {
    hide AllWithin, Resumed, Split, Silence;
    if !(prob >= c.threshold && !q.st.isSpeech) {
      if TooLong(c, x, q.st) {
        SplitKeepsLength(c, x, q);
        if q.st.prevEnd == 0 { CutCloses(x, q); }
      }
      var u := if TooLong(c, x, q.st) then Split(x, q) else q;
      if u.st.isSpeech { SilenceKeepsLength(c, x, u); }
    }
  }

  lemma WindowKeepsLength(c: Config, probs: seq<real>, i: nat, r: Scanned)
    requires c.window > 0 && i < |probs| && Inv(c, probs, i, r) && LengthInv(c, i, r)
    ensures LengthInv(c, i + 1, ScanWindow(c, Sample(c, i), probs[i], r))
  {
    ResumedIsMid(c, probs, i, r);
    MidKeepsLength(c, i, Sample(c, i), probs[i], r, r.(st := Resumed(c, Sample(c, i), probs[i], r.st)));
  }

  lemma CutCloses(x: int, r: Scanned)
    requires r.st.prevEnd == 0
    ensures !Split(x, r).st.isSpeech
  {
  }

  lemma {:induction false} ScanKeepsLength(c: Config, probs: seq<real>, n: nat)
    requires c.window > 0 && n <= |probs|
    ensures LengthInv(c, n, ScanTo(c, probs, n))
  {
    hide Inv, LengthInv, ScanWindow, Sample;
    if n == 0 {
      StartLength(c);
    } else {
      ScanKeepsInv(c, probs, n - 1);
      ScanKeepsLength(c, probs, n - 1);
      WindowKeepsLength(c, probs, n - 1, ScanTo(c, probs, n - 1));
    }
  }

  lemma StartLength(c: Config)
    ensures LengthInv(c, 0, Scanned(CLOSED, [], []))
  {
  }

  /** The scan keeps to the maximal length, give or take the window in which it is exceeded. */
  lemma RawIsBounded(c: Config, probs: seq<real>)
    requires c.window > 0
    ensures AllWithin(ScanResult(c, probs).speeches, c.maxSpeech + c.window)
  {
    ScanKeepsInv(c, probs, |probs|);
    ScanKeepsLength(c, probs, |probs|);
  }

  // ---- merged segments ----

  /** Segments `i` to `j` follow each other at less than the merging distance. */
  ghost predicate Chain(s: seq<Segment>, i: nat, j: nat) {
    i <= j < |s| && forall k :: i < k <= j ==> Near(s, k)
  }

  predicate Near(s: seq<Segment>, k: nat)
    requires 0 < k < |s|
  {
    s[k].start - s[k - 1].end < MERGE_GAP
  }

  ghost predicate NoLongChain(s: seq<Segment>, bound: int) {
    forall i: nat, j: nat :: Chain(s, i, j) ==> ChainWithin(s, i, j, bound)
  }

  predicate ChainWithin(s: seq<Segment>, i: nat, j: nat, bound: int)
    requires i < |s| && j < |s|
  {
    s[j].end - s[i].start <= bound
  }

  function Joined(s: seq<Segment>): seq<Segment>
    requires |s| > 1
  {
    [Segment(s[0].start, s[1].end)] + s[2..]
  }

  lemma ChainOfTail(s: seq<Segment>, i: nat, j: nat)
    requires |s| > 0 && Chain(s[1..], i, j)
    ensures Chain(s, i + 1, j + 1)
  {
    forall k | i + 1 < k <= j + 1 ensures Near(s, k) {
      assert Near(s[1..], k - 1);
    }
  }

  lemma ChainInTail(s: seq<Segment>, i: nat, j: nat)
    requires i > 0 && Chain(s, i, j)
    ensures Chain(s[1..], i - 1, j - 1)
  {
    forall k | i - 1 < k <= j - 1 ensures Near(s[1..], k) {
      assert Near(s, k + 1);
    }
  }

  lemma ChainOfJoined(s: seq<Segment>, i: nat, j: nat)
    requires |s| > 1 && s[1].start - s[0].end < MERGE_GAP && Chain(Joined(s), i, j)
    ensures Chain(s, if i == 0 then 0 else i + 1, j + 1)
  {
    var t := Joined(s);
    forall k | (if i == 0 then 0 else i + 1) < k <= j + 1 ensures Near(s, k) {
      if k > 1 { assert Near(t, k - 1); }
    }
  }

  lemma ChainInJoined(s: seq<Segment>, i: nat, j: nat)
    requires |s| > 1 && Chain(s, i, j)
    ensures Chain(Joined(s), if i == 0 then 0 else i - 1, if j == 0 then 0 else j - 1)
  {
    var t := Joined(s);
    forall k | (if i == 0 then 0 else i - 1) < k <= (if j == 0 then 0 else j - 1) ensures Near(t, k) {
      assert Near(s, k + 1);
    }
  }

  lemma JoinedChains(s: seq<Segment>, bound: int, limit: int)
    requires Sorted(s, limit) && |s| > 1 && s[1].start - s[0].end < MERGE_GAP
    ensures NoLongChain(s, bound) <==> NoLongChain(Joined(s), bound)
  {
    var t := Joined(s);
    if NoLongChain(s, bound) {
      forall i: nat, j: nat | Chain(t, i, j) ensures ChainWithin(t, i, j, bound) {
        ChainOfJoined(s, i, j);
        assert ChainWithin(s, if i == 0 then 0 else i + 1, j + 1, bound);
      }
    }
    if NoLongChain(t, bound) {
      forall i: nat, j: nat | Chain(s, i, j) ensures ChainWithin(s, i, j, bound) {
        ChainInJoined(s, i, j);
        var i', j': nat := if i == 0 then 0 else i - 1, if j == 0 then 0 else j - 1;
        assert ChainWithin(t, i', j', bound);
        assert t[i'].start <= s[i].start && s[j].end <= t[j'].end;
      }
    }
  }

  lemma SplitChains(s: seq<Segment>, bound: int, limit: int)
    requires Sorted(s, limit) && |s| > 1 && s[1].start - s[0].end >= MERGE_GAP
    ensures NoLongChain(s, bound) <==> s[0].end - s[0].start <= bound && NoLongChain(s[1..], bound)
  {
    if NoLongChain(s, bound) {
      assert Chain(s, 0, 0) && ChainWithin(s, 0, 0, bound);
      forall i: nat, j: nat | Chain(s[1..], i, j) ensures ChainWithin(s[1..], i, j, bound) {
        ChainOfTail(s, i, j);
        assert ChainWithin(s, i + 1, j + 1, bound);
      }
    }
    if s[0].end - s[0].start <= bound && NoLongChain(s[1..], bound) {
      assert !Near(s, 1);
      forall i: nat, j: nat | Chain(s, i, j) ensures ChainWithin(s, i, j, bound) {
        if i > 0 {
          ChainInTail(s, i, j);
          assert ChainWithin(s[1..], i - 1, j - 1, bound);
        }
      }
    }
  }

  lemma WithinCons(x: Segment, s: seq<Segment>, bound: int)
    ensures AllWithin([x] + s, bound) <==> x.end - x.start <= bound && AllWithin(s, bound)
  {
    var t := [x] + s;
    if AllWithin(t, bound) {
      assert t[0] == x;
      forall j | 0 <= j < |s| ensures s[j].end - s[j].start <= bound { assert t[j + 1] == s[j]; }
    }
  }

  /** Merging keeps a bound on the length exactly when no chain of small gaps spans more. */
  lemma {:induction false} MergedWithinIff(s: seq<Segment>, bound: int, limit: int)
    requires Sorted(s, limit)
    ensures AllWithin(Merged(s), bound) <==> NoLongChain(s, bound)
    decreases |s|
  {
    hide AllWithin, NoLongChain, Sorted;
    if |s| < 2 {
      ShortList(s, bound);
    } else {
      SortedTail(s, limit);
      if s[1].start - s[0].end < MERGE_GAP {
        MergedWithinIff(Joined(s), bound, limit);
        JoinedChains(s, bound, limit);
      } else {
        MergedWithinIff(s[1..], bound, limit);
        SplitChains(s, bound, limit);
        WithinCons(s[0], Merged(s[1..]), bound);
      }
    }
  }

  lemma ShortList(s: seq<Segment>, bound: int)
    requires |s| < 2
    ensures AllWithin(s, bound) <==> NoLongChain(s, bound)
  {
    if |s| == 1 && NoLongChain(s, bound) {
      assert Chain(s, 0, 0) && ChainWithin(s, 0, 0, bound);
    }
  }

  /** So the segmenter's merged segments keep the scan's bound exactly when no chain spans more. */
  lemma MergingKeepsBoundIff(c: Config, probs: seq<real>)
    requires c.window > 0
    ensures var raw, bound := ScanResult(c, probs).speeches, c.maxSpeech + c.window;
            AllWithin(raw, bound) && (AllWithin(Merged(raw), bound) <==> NoLongChain(raw, bound))
  {
    RawIsBounded(c, probs);
    ScanIsRight(c, probs);
    MergedWithinIff(ScanResult(c, probs).speeches, c.maxSpeech + c.window, Sample(c, |probs|));
  }

  // ---- continuous speech ----

  function Talking(n: nat): seq<real> { seq(n, _ => 1.0) }

  /** Speech that starts at zero and goes on after every cut with the next window. */
  ghost predicate Unbroken(c: Config, s: seq<Segment>) {
    && (s != [] ==> s[0].start == 0)
    && forall j :: 0 < j < |s| ==> Follows(c, s, j)
  }

  predicate Follows(c: Config, s: seq<Segment>, j: nat)
    requires 0 < j < |s|
  {
    s[j].start == s[j - 1].end + c.window
  }

  /** Where the next segment starts. */
  function NextStart(c: Config, s: seq<Segment>): int {
    if s == [] then 0 else s[|s| - 1].end + c.window
  }

  ghost predicate TalkInv(c: Config, i: nat, r: Scanned) {
    && r.dropped == [] && Unbroken(c, r.speeches)
    && r.st.hasCurr == r.st.isSpeech && r.st.tempEnd == r.st.prevEnd == r.st.nextStart == 0
    && (if r.st.isSpeech then r.st.currStart == NextStart(c, r.speeches) else Sample(c, i) == NextStart(c, r.speeches))
  }

  lemma UnbrokenPush(c: Config, s: seq<Segment>, y: Segment)
    requires Unbroken(c, s) && y.start == NextStart(c, s)
    ensures Unbroken(c, s + [y]) && NextStart(c, s + [y]) == y.end + c.window
  {
    forall j | 0 < j < |s + [y]| ensures Follows(c, s + [y], j) {
      if j < |s| { assert Follows(c, s, j); }
    }
  }

  ghost predicate Hears(c: Config) {
    c.window > 0 && c.threshold <= 1.0 && c.negThreshold <= 1.0
  }

  lemma TalkStep(c: Config, i: nat, r: Scanned)
    requires Hears(c) && TalkInv(c, i, r)
    ensures TalkInv(c, i + 1, ScanWindow(c, Sample(c, i), 1.0, r))
  {
    var x := Sample(c, i);
    if TooLong(c, x, r.st) { UnbrokenPush(c, r.speeches, Segment(r.st.currStart, x)); }
  }

  lemma {:induction false} TalkRun(c: Config, n: nat, i: nat)
    requires Hears(c) && i <= n
    ensures TalkInv(c, i, ScanTo(c, Talking(n), i))
  {
    hide TalkInv, ScanWindow, Sample, Hears;
    if i == 0 {
      TalkStart(c);
    } else {
      TalkRun(c, n, i - 1);
      TalkStep(c, i - 1, ScanTo(c, Talking(n), i - 1));
    }
  }

  lemma TalkStart(c: Config)
    ensures TalkInv(c, 0, Scanned(CLOSED, [], []))
  {
  }

  /** All of it but the end is in the raw segments. */
  lemma TalkIsScanned(c: Config, n: nat)
    requires Hears(c)
    ensures var raw, length := ScanResult(c, Talking(n)).speeches, Sample(c, n);
            Unbroken(c, raw) && (length > c.minSpeech ==> raw != [] && raw[|raw| - 1].end >= length - c.window - c.minSpeech)
  {
    hide ScanTo;
    TalkRun(c, n, n);
    TalkEnds(c, n, ScanTo(c, Talking(n), n));
  }

  lemma TalkEnds(c: Config, n: nat, r: Scanned)
    requires Hears(c) && TalkInv(c, n, r)
    ensures var raw, length := Finish(c, Sample(c, n), r).speeches, Sample(c, n);
            Unbroken(c, raw) && (length > c.minSpeech ==> raw != [] && raw[|raw| - 1].end >= length - c.window - c.minSpeech)
  {
    hide Unbroken, Sample;
    if r.st.isSpeech { UnbrokenPush(c, r.speeches, Segment(r.st.currStart, Sample(c, n))); }
  }

  /** Merging puts it together again. */
  lemma {:induction false} UnbrokenMerges(c: Config, s: seq<Segment>)
    requires Unbroken(c, s) && c.window < MERGE_GAP && s != []
    ensures Merged(s) == [Segment(0, s[|s| - 1].end)]
    decreases |s|
  {
    if |s| > 1 {
      assert Follows(c, s, 1);
      var t := Joined(s);
      forall j | 0 < j < |t| ensures Follows(c, t, j) {
        assert Follows(c, s, j + 1);
      }
      UnbrokenMerges(c, t);
    }
  }

  /** No length bounds the final segments: for every bound there is continuous speech that ends
      up in a longer one, whatever the maximal length. */
  lemma NoFinalBound(p: Params, window: nat, bound: nat) returns (probs: seq<real>)
    requires 0 < window < MERGE_GAP && p.maxSpeechS >= 0.0 && p.threshold <= 1.0
    ensures forall i :: 0 <= i < |probs| ==> probs[i] == 1.0
    ensures var final := FinalSegments(Configure(p, window), probs);
            |final| == 1 && final[0].end - final[0].start > bound
  {
    var c := Configure(p, window);
    var n := bound + 2 * c.minSpeech + window + 1;
    probs := Talking(n);
    SampleAtLeast(c, n);
    TalkIsScanned(c, n);
    var raw, length := ScanResult(c, probs).speeches, Sample(c, n);
    UnbrokenMerges(c, raw);
    ScanIsRight(c, probs);
    LongIsFinal(c, probs, raw[|raw| - 1].end);
  }

  lemma LongIsFinal(c: Config, probs: seq<real>, end: int)
    requires c.window > 0 && Merged(ScanResult(c, probs).speeches) == [Segment(0, end)]
    requires c.minSpeech <= end <= Sample(c, |probs|)
    ensures var final := FinalSegments(c, probs); |final| == 1 && final[0].end - final[0].start >= end
  {
    hide ScanResult, Merged;
    var s := [Segment(0, end)];
    assert s[1..] == [] && Kept([], c.minSpeech) == [];
    assert Kept(s, c.minSpeech) == s;
    PaddedIsRight(s, 0, c.pad, Sample(c, |probs|));
  }

  /** For instance: with a maximum of one second and the padding at 484 ms no sample may follow the
      first window of a segment, but four windows of speech become one segment of three. */
  lemma FourWindows()
    ensures var c := Configure(Params(0.5, 0, 100, 1.0, 484), 512);
            && c.maxSpeech == 0
            && ScanResult(c, Talking(4)).speeches == [Segment(0, 512), Segment(1024, 1536)]
            && Merged(ScanResult(c, Talking(4)).speeches) == [Segment(0, 1536)]
            && !AllWithin(Merged(ScanResult(c, Talking(4)).speeches), c.maxSpeech + c.window)
  {
    var c := Configure(Params(0.5, 0, 100, 1.0, 484), 512);
    assert c == Config(0.5, 0.35, 512, 1600, 1568, 0, 0, 7744);
    var probs := Talking(4);
    assert Sample(c, 1) == 512 && Sample(c, 2) == 1024 && Sample(c, 3) == 1536 && Sample(c, 4) == 2048;
    assert ScanTo(c, probs, 1) == Scanned(State(true, true, 0, 0, 0, 0), [], []);
    assert ScanTo(c, probs, 2) == Scanned(CLOSED, [Segment(0, 512)], []);
    assert ScanTo(c, probs, 3) == Scanned(State(true, true, 0, 0, 0, 1024), [Segment(0, 512)], []);
    assert ScanTo(c, probs, 4) == Scanned(CLOSED.(currStart := 1024), [Segment(0, 512), Segment(1024, 1536)], []);
    UnbrokenTwo();
    assert [Segment(0, 1536)][0].end - [Segment(0, 1536)][0].start == 1536;
  }

  lemma UnbrokenTwo()
    ensures Merged([Segment(0, 512), Segment(1024, 1536)]) == [Segment(0, 1536)]
  {
    var s := [Segment(0, 512), Segment(1024, 1536)];
    assert [Segment(s[0].start, s[1].end)] + s[2..] == [Segment(0, 1536)];
  }
}
