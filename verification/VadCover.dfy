/** Exactly when the segmenter's scan loses no speech. */
module VadCover {
  import opened Arith
  import opened VadScan

  ghost predicate Probabilities(probs: seq<real>) {
    forall i :: 0 <= i < |probs| ==> 0.0 <= probs[i] <= 1.0
  }

  /** A pause of `k` windows behind its first one ends a segment or is where it will be cut, and
      comes before the segment is too long even when that is as short as it can be.  With a
      threshold of zero or less every window is speech, and a pause is never longer than its first
      window. */
  predicate ClosesAfter(c: Config, k: nat) {
    && (k == 0 || c.threshold > 0.0)
    && (Sample(c, k) >= c.minSilence || Sample(c, k) > c.minSilenceAtMax)
    && Sample(c, k + 1) <= c.maxSpeech
  }

  /** Some pause can close a segment. */
  predicate CanClose(c: Config) {
    exists k: nat :: k <= c.maxSpeech && ClosesAfter(c, k)
  }

  ghost predicate LosesNothing(c: Config) {
    forall probs :: Probabilities(probs) ==> Covers(c, probs, ScanResult(c, probs))
  }

  lemma {:induction false} SampleDiff(c: Config, j: nat, k: nat)
    requires j <= k
    ensures Sample(c, k) - Sample(c, j) == Sample(c, k - j)
    decreases k
  {
    if j < k { SampleDiff(c, j, k - 1); }
  }

  lemma ClosesIsBounded(c: Config, k: nat)
    requires c.window > 0 && ClosesAfter(c, k)
    ensures CanClose(c)
  {
    SampleAtLeast(c, k + 1);
  }

  // ---- thresholds the right way round ----

  lemma NoneLost(c: Config, probs: seq<real>)
    requires c.window > 0 && c.negThreshold <= c.threshold
    ensures Covers(c, probs, ScanResult(c, probs))
  {
    var r := ScanResult(c, probs);
    forall k: nat | Speech(c, probs, k) ensures Caught(c, r, Sample(c, k)) {
      CaughtOrLost(c, probs, k);
    }
  }

  // ---- segments too short for any pause ----

  predicate IsWindow(c: Config, x: int, a: nat) { x == Sample(c, a) }

  /** Nothing has been closed by a pause: all segments are cuts. */
  ghost predicate OnlyCuts(c: Config, n: nat, r: Scanned) {
    && r.dropped == [] && r.st.prevEnd == 0
    && (forall j :: 0 <= j < |r.speeches| ==> r.speeches[j].end - r.speeches[j].start > c.maxSpeech)
    && (r.st.isSpeech ==> exists a: nat :: a < n && IsWindow(c, r.st.currStart, a))
    && (r.st.isSpeech && r.st.tempEnd != 0 ==> exists t: nat :: t < n && IsWindow(c, r.st.tempEnd, t))
    && (r.st.isSpeech && r.st.tempEnd != 0 ==> r.st.tempEnd >= r.st.currStart + c.window)
    && (!r.st.isSpeech ==> r.st.tempEnd == 0)
  }

  /** A pause that could close the segment would have come too late. */
  lemma PauseTooShort(c: Config, i: nat, prob: real, st: State)
    requires c.window > 0 && !CanClose(c) && prob >= 0.0 && st.isSpeech && !TooLong(c, Sample(c, i), st)
    requires exists a: nat :: a < i && IsWindow(c, st.currStart, a)
    requires prob >= c.threshold ==> st.tempEnd == 0
    requires st.tempEnd != 0 ==> exists t: nat :: t < i && IsWindow(c, st.tempEnd, t)
    requires st.tempEnd != 0 ==> st.tempEnd >= st.currStart + c.window
    ensures var x := Sample(c, i); var t := if st.tempEnd == 0 then x else st.tempEnd;
            x - t < c.minSilence && x - t <= c.minSilenceAtMax && t >= st.currStart + c.window
  {
    var a: nat :| a < i && IsWindow(c, st.currStart, a);
    SampleUp(c, a, i);
    var t: nat := i;
    if st.tempEnd != 0 {
      t :| t < i && IsWindow(c, st.tempEnd, t);
    }
    SampleDiff(c, t, i);
    if ClosesAfter(c, i - t) { ClosesIsBounded(c, i - t); }
  }

  lemma WindowKeepsCuts(c: Config, i: nat, prob: real, r: Scanned)
    requires c.window > 0 && !CanClose(c) && prob >= 0.0 && OnlyCuts(c, i, r)
    ensures OnlyCuts(c, i + 1, ScanWindow(c, Sample(c, i), prob, r))
  {
    var x := Sample(c, i);
    var q := r.(st := Resumed(c, x, prob, r.st));
    assert IsWindow(c, x, i);
    if !(prob >= c.threshold && !q.st.isSpeech) && !TooLong(c, x, q.st) && prob < c.negThreshold && q.st.isSpeech {
      PauseTooShort(c, i, prob, q.st);
    }
  }

  lemma {:induction false} ScanKeepsCuts(c: Config, probs: seq<real>, n: nat)
    requires c.window > 0 && !CanClose(c) && Probabilities(probs) && n <= |probs|
    ensures OnlyCuts(c, n, ScanTo(c, probs, n))
  {
    hide OnlyCuts, ScanWindow, Sample, CanClose;
    if n == 0 {
      StartCuts(c);
    } else {
      ScanKeepsCuts(c, probs, n - 1);
      WindowKeepsCuts(c, n - 1, probs[n - 1], ScanTo(c, probs, n - 1));
    }
  }

  lemma StartCuts(c: Config)
    ensures OnlyCuts(c, 0, Scanned(CLOSED, [], []))
  {
  }

  lemma NonePaused(c: Config, probs: seq<real>)
    requires c.window > 0 && !CanClose(c) && Probabilities(probs)
    ensures Covers(c, probs, ScanResult(c, probs))
  {
    var r := ScanResult(c, probs);
    ScanKeepsCuts(c, probs, |probs|);
    forall k: nat | Speech(c, probs, k) ensures Caught(c, r, Sample(c, k)) {
      CaughtOrLost(c, probs, k);
      SampleUp(c, k, |probs|);
      if Lost(c, probs, r, k) { EndIsCut(c, probs, k); }
    }
  }

  lemma EndIsCut(c: Config, probs: seq<real>, k: nat)
    requires c.window > 0 && k < |probs| && OnlyCuts(c, |probs|, ScanTo(c, probs, |probs|))
    requires Lost(c, probs, ScanResult(c, probs), k)
    ensures CutAt(c, ScanResult(c, probs).speeches, Sample(c, k))
  {
    var r := ScanResult(c, probs);
    SampleUp(c, k, |probs|);
    if EndsAt(r.speeches, Sample(c, k)) {
      var j :| 0 <= j < |r.speeches| && r.speeches[j].end == Sample(c, k);
      assert r.speeches[j] == ScanTo(c, probs, |probs|).speeches[j];
    }
  }

  // ---- the failing input ----

  /** Speech, then speech that counts as silence, then silence. */
  function Fading(c: Config, m: nat): seq<real> {
    [1.0, if c.threshold > 0.0 then c.threshold else 0.0] + seq(m, _ => 0.0)
  }

  const FIRST := State(true, true, 0, 0, 0, 0)

  /** The pause that began with the second window goes on. */
  predicate Fades(c: Config, i: nat, r: Scanned)
    requires i > 0
  {
    && r.speeches == [] && r.dropped == []
    && r.st == FIRST.(tempEnd := c.window, prevEnd := r.st.prevEnd)
    && (r.st.prevEnd == 0 || r.st.prevEnd == c.window)
    && Sample(c, i - 1) <= c.maxSpeech && Sample(c, i - 1) - c.window < c.minSilence
    && (Sample(c, i - 1) - c.window > c.minSilenceAtMax ==> r.st.prevEnd == c.window)
  }

  /** The segment ended with its first window. */
  predicate Faded(c: Config, r: Scanned) {
    && !r.st.isSpeech && !r.st.hasCurr && r.st.tempEnd == 0
    && ((r.speeches == [Segment(0, c.window)] && r.dropped == []) || (r.speeches == [] && r.dropped == [Segment(0, c.window)]))
  }

  ghost predicate CanFade(c: Config, k: nat) {
    c.window > 0 && c.threshold < c.negThreshold && 0.0 < c.negThreshold && c.threshold <= 1.0 && ClosesAfter(c, k)
  }

  lemma FirstTwo(c: Config, m: nat, k: nat)
    requires CanFade(c, k)
    ensures var r := ScanTo(c, Fading(c, m), 2); Fades(c, 2, r) || Faded(c, r)
  {
    var probs := Fading(c, m);
    assert Sample(c, 0) == 0 && Sample(c, 1) == c.window;
    if k > 0 { SampleUp(c, 1, k + 1); }
    assert ScanTo(c, probs, 0) == Scanned(CLOSED, [], []);
    assert ScanTo(c, probs, 1) == Scanned(FIRST, [], []);
  }

  lemma FadeStep(c: Config, k: nat, i: nat, r: Scanned)
    requires CanFade(c, k) && c.threshold > 0.0 && i >= 2 && (Fades(c, i, r) || Faded(c, r))
    ensures var q := ScanWindow(c, Sample(c, i), 0.0, r); Fades(c, i + 1, q) || Faded(c, q)
  {
    hide ScanWindow, Fades, Faded;
    if Faded(c, r) {
      FadedStays(c, Sample(c, i), r);
    } else {
      if Sample(c, i) > c.maxSpeech { PauseIsMarked(c, k, i, r); }
      FadesOn(c, i, r);
    }
  }

  lemma FadedStays(c: Config, x: int, r: Scanned)
    requires c.threshold > 0.0 && Faded(c, r)
    ensures Faded(c, ScanWindow(c, x, 0.0, r))
  {
  }

  /** When the segment gets too long the pause is already known as a place to cut it. */
  lemma PauseIsMarked(c: Config, k: nat, i: nat, r: Scanned)
    requires CanFade(c, k) && i >= 2 && Fades(c, i, r) && Sample(c, i) > c.maxSpeech
    ensures r.st.prevEnd == c.window
  {
    assert i > k + 1 by {
      if i < k + 1 { SampleUp(c, i, k + 1); }
    }
    if k + 1 < i - 1 { SampleUp(c, k + 1, i - 1); }
    assert Sample(c, k + 1) == Sample(c, k) + c.window;
  }

  lemma FadesOn(c: Config, i: nat, r: Scanned)
    requires c.window > 0 && 0.0 < c.threshold < c.negThreshold && i >= 2 && Fades(c, i, r)
    requires Sample(c, i) > c.maxSpeech ==> r.st.prevEnd == c.window
    ensures var q := ScanWindow(c, Sample(c, i), 0.0, r); Fades(c, i + 1, q) || Faded(c, q)
  {
    var x := Sample(c, i);
    assert Resumed(c, x, 0.0, r.st) == r.st && r.(st := r.st) == r;
    if TooLong(c, x, r.st) {
      assert Faded(c, Split(x, r));
    }
  }

  lemma {:induction false} FadeRun(c: Config, m: nat, k: nat, i: nat)
    requires CanFade(c, k) && (m > 0 ==> c.threshold > 0.0) && 2 <= i <= m + 2
    ensures var r := ScanTo(c, Fading(c, m), i); Fades(c, i, r) || Faded(c, r)
  {
    hide Fades, Faded, CanFade, ScanWindow;
    if i == 2 {
      FirstTwo(c, m, k);
    } else {
      FadeRun(c, m, k, i - 1);
      assert Fading(c, m)[i - 1] == 0.0;
      FadeStep(c, k, i - 1, ScanTo(c, Fading(c, m), i - 1));
    }
  }

  /** As many silent windows as it takes. */
  function Tail(c: Config): nat { if c.threshold > 0.0 then c.maxSpeech else 0 }

  lemma FadeEnds(c: Config, k: nat)
    requires CanFade(c, k)
    ensures Faded(c, ScanTo(c, Fading(c, Tail(c)), Tail(c) + 2))
  {
    var m := Tail(c);
    FadeRun(c, m, k, m + 2);
    SampleAtLeast(c, m + 1);
    assert Sample(c, 1) == c.window;
  }

  /** The second window is speech and in no segment or burst, nor at a cut. */
  lemma SecondIsLost(c: Config, k: nat)
    requires CanFade(c, k)
    ensures var probs := Fading(c, Tail(c));
            Probabilities(probs) && Speech(c, probs, 1) && !Caught(c, ScanResult(c, probs), Sample(c, 1))
  {
    hide ScanTo, Faded, ClosesAfter, Caught;
    var probs := Fading(c, Tail(c));
    FadeEnds(c, k);
    assert |probs| == Tail(c) + 2 && Sample(c, 1) == c.window;
    FadedMisses(c, k, ScanTo(c, probs, |probs|), Sample(c, |probs|));
  }

  lemma FadedMisses(c: Config, k: nat, r: Scanned, length: int)
    requires CanFade(c, k) && Faded(c, r)
    ensures !Caught(c, Finish(c, length, r), c.window)
  {
    assert Sample(c, 1) == c.window;
    if k > 0 { SampleUp(c, 1, k + 1); }
  }

  /** Exactly when no speech is lost, whatever the probabilities: the threshold is at least 0.01,
      or the maximal length is so small that segments are only ever cut. */
  lemma LosesNothingIff(p: Params, window: nat)
    requires window > 0 && p.maxSpeechS >= 0.0
    ensures LosesNothing(Configure(p, window)) <==> p.threshold >= 0.01 || !CanClose(Configure(p, window))
  {
    var c := Configure(p, window);
    hide Covers, ScanResult, ClosesAfter;
    if p.threshold >= 0.01 {
      forall probs | Probabilities(probs) ensures Covers(c, probs, ScanResult(c, probs)) { NoneLost(c, probs); }
    } else if !CanClose(c) {
      forall probs | Probabilities(probs) ensures Covers(c, probs, ScanResult(c, probs)) { NonePaused(c, probs); }
    } else {
      var k: nat :| k <= c.maxSpeech && ClosesAfter(c, k);
      LostSomewhere(c, k);
    }
  }

  lemma LostSomewhere(c: Config, k: nat)
    requires CanFade(c, k)
    ensures !LosesNothing(c)
  {
    SecondIsLost(c, k);
    assert !Covers(c, Fading(c, Tail(c)), ScanResult(c, Fading(c, Tail(c))));
  }

  /** For instance: half a percent as the threshold, a minimum silence of 100 ms, segments of up to
      30 s and windows of 512 samples. */
  lemma HalfPercentLoses()
    ensures !LosesNothing(Configure(Params(0.005, 250, 100, 30.0, 30), 512))
  {
    var c := Configure(Params(0.005, 250, 100, 30.0, 30), 512);
    assert c == Config(0.005, 0.01, 512, 1600, 1568, 4000, 478528, 480);
    assert Sample(c, 1) == 512 && Sample(c, 2) == 1024 && Sample(c, 3) == 1536 && Sample(c, 4) == 2048 && Sample(c, 5) == 2560;
    LostSomewhere(c, 4);
  }
}
