/** What becomes of the raw segments: near ones are merged, short ones dropped, the rest padded
    and converted to centiseconds. */
module VadSegments {
  import opened VadScan

  const MERGE_GAP: nat := SAMPLE_RATE * 200 / 1000

  // ---- merging ----

  function Merged(s: seq<Segment>): seq<Segment>
    decreases |s|
  {
    if |s| < 2 then s
    else if s[1].start - s[0].end < MERGE_GAP then Merged([Segment(s[0].start, s[1].end)] + s[2..])
    else [s[0]] + Merged(s[1..])
  }

  /** The loop erases the right-hand segment of a merged pair and looks at the left one again. */
  method Merge(raw: seq<Segment>) returns (speeches: seq<Segment>)
    ensures speeches == Merged(raw)
  {
    speeches := raw;
    if |speeches| > 1 {
      var i: int := 0;
      while i < |speeches| - 1
        invariant 0 <= i <= |speeches|
        invariant speeches[..i] + Merged(speeches[i..]) == Merged(raw)
        decreases |speeches| - i
      {
        ghost var was := speeches;
        if speeches[i + 1].start - speeches[i].end < MERGE_GAP {
          MergePair(speeches, i);
          speeches := speeches[i := Segment(speeches[i].start, speeches[i + 1].end)];
          speeches := speeches[..i + 1] + speeches[i + 2..];
          i := i - 1;
        } else {
          KeepApart(speeches, i);
        }
        i := i + 1;
      }
      assert speeches[..i] + speeches[i..] == speeches;
    }
  }

  lemma MergePair(s: seq<Segment>, i: nat)
    requires i + 1 < |s| && s[i + 1].start - s[i].end < MERGE_GAP
    ensures var t := s[i := Segment(s[i].start, s[i + 1].end)];
            var u := t[..i + 1] + t[i + 2..];
            u[..i] == s[..i] && Merged(u[i..]) == Merged(s[i..])
  {
    var t := s[i := Segment(s[i].start, s[i + 1].end)];
    var u := t[..i + 1] + t[i + 2..];
    assert u[i..] == [Segment(s[i].start, s[i + 1].end)] + s[i..][2..];
  }

  lemma KeepApart(s: seq<Segment>, i: nat)
    requires i + 1 < |s| && s[i + 1].start - s[i].end >= MERGE_GAP
    ensures s[..i + 1] + Merged(s[i + 1..]) == s[..i] + Merged(s[i..])
  {
    assert s[i..][1..] == s[i + 1..];
    assert s[..i + 1] == s[..i] + [s[i]];
  }

  lemma SortedTail(s: seq<Segment>, limit: int)
    requires Sorted(s, limit) && |s| > 1
    ensures Sorted(s[1..], limit) && Sorted([Segment(s[0].start, s[1].end)] + s[2..], limit)
  {
  }

  /** Gaps of at least the merging distance. */
  ghost predicate Apart(s: seq<Segment>) {
    forall j :: 0 < j < |s| ==> s[j].start - s[j - 1].end >= MERGE_GAP
  }

  lemma ApartCons(x: Segment, s: seq<Segment>)
    requires Apart(s) && (s != [] ==> s[0].start - x.end >= MERGE_GAP)
    ensures Apart([x] + s)
  {
  }

  lemma SortedCons(x: Segment, s: seq<Segment>, limit: int)
    requires Sorted(s, limit) && 0 <= x.start <= x.end <= limit && (s != [] ==> x.end <= s[0].start)
    ensures Sorted([x] + s, limit)
  {
    forall k | 0 <= k < |s| ensures x.end <= s[k].start {
      assert k > 0 ==> s[0].end <= s[k].start;
    }
  }

  /** Merging closes exactly the small gaps: what is left is apart, nothing covered is lost, and
      both ends of every merged segment are ends of raw segments. */
  lemma {:induction false} MergedIsRight(s: seq<Segment>, limit: int)
    requires Sorted(s, limit)
    ensures Sorted(Merged(s), limit) && Apart(Merged(s))
    ensures s != [] ==> Merged(s) != [] && Merged(s)[0].start == s[0].start
    decreases |s|
  {
    if |s| >= 2 {
      SortedTail(s, limit);
      if s[1].start - s[0].end < MERGE_GAP {
        MergedIsRight([Segment(s[0].start, s[1].end)] + s[2..], limit);
      } else {
        var rest := Merged(s[1..]);
        MergedIsRight(s[1..], limit);
        SortedCons(s[0], rest, limit);
        ApartCons(s[0], rest);
      }
    }
  }

  lemma InSomeCons(x: Segment, s: seq<Segment>, p: int)
    ensures InSome([x] + s, p) <==> x.start <= p < x.end || InSome(s, p)
  {
    var t := [x] + s;
    if x.start <= p < x.end { assert t[0] == x; }
    if InSome(s, p) {
      var j :| 0 <= j < |s| && s[j].start <= p < s[j].end;
      assert t[j + 1] == s[j];
    }
  }

  /** Sample `p` lies in a gap that is merged away. */
  ghost predicate InSmallGap(s: seq<Segment>, p: int) {
    exists j :: 0 < j < |s| && Between(s[j - 1], s[j], p)
  }

  predicate Between(a: Segment, b: Segment, p: int) {
    b.start - a.end < MERGE_GAP && a.end <= p < b.start
  }

  lemma SmallGapCons(x: Segment, s: seq<Segment>, p: int)
    requires s != []
    ensures InSmallGap([x] + s, p) <==> Between(x, s[0], p) || InSmallGap(s, p)
  {
    var t := [x] + s;
    if Between(x, s[0], p) { assert Between(t[1 - 1], t[1], p); }
    if InSmallGap(s, p) {
      var j :| 0 < j < |s| && Between(s[j - 1], s[j], p);
      assert Between(t[j + 1 - 1], t[j + 1], p);
    }
    if InSmallGap(t, p) {
      var j :| 0 < j < |t| && Between(t[j - 1], t[j], p);
      if j > 1 { assert Between(s[j - 1 - 1], s[j - 1], p); }
    }
  }

  lemma SmallGapHead(x: Segment, y: Segment, s: seq<Segment>, p: int)
    requires x.end == y.end
    ensures InSmallGap([x] + s, p) == InSmallGap([y] + s, p)
  {
    if s != [] {
      SmallGapCons(x, s, p);
      SmallGapCons(y, s, p);
    }
  }

  /** The merged segments cover exactly the raw segments and the small gaps between them. */
  lemma {:induction false} MergedCovers(s: seq<Segment>, limit: int, p: int)
    requires Sorted(s, limit)
    ensures InSome(Merged(s), p) <==> InSome(s, p) || InSmallGap(s, p)
    decreases |s|
  {
    if |s| >= 2 {
      SortedTail(s, limit);
      assert s == [s[0]] + s[1..] && s[1..] == [s[1]] + s[2..];
      InSomeCons(s[0], s[1..], p);
      SmallGapCons(s[0], s[1..], p);
      if s[1].start - s[0].end < MERGE_GAP {
        var x := Segment(s[0].start, s[1].end);
        InSomeCons(s[1], s[2..], p);
        InSomeCons(x, s[2..], p);
        SmallGapHead(x, s[1], s[2..], p);
        MergedCovers([x] + s[2..], limit, p);
        assert s[0].end <= s[1].start;
      } else {
        MergedCovers(s[1..], limit, p);
        InSomeCons(s[0], Merged(s[1..]), p);
      }
    }
  }

  // ---- dropping short segments ----

  function Kept(s: seq<Segment>, least: int): seq<Segment> {
    if s == [] then []
    else (if s[0].end - s[0].start < least then [] else [s[0]]) + Kept(s[1..], least)
  }

  method DropShort(merged: seq<Segment>, least: int) returns (speeches: seq<Segment>)
    ensures speeches == Kept(merged, least)
  {
    speeches := merged;
    var i: int := 0;
    while i < |speeches|
      invariant 0 <= i <= |speeches|
      invariant speeches[..i] + Kept(speeches[i..], least) == Kept(merged, least)
      decreases |speeches| - i
    {
      assert speeches[i..][1..] == speeches[i + 1..];
      if speeches[i].end - speeches[i].start < least {
        assert (speeches[..i] + speeches[i + 1..])[..i] == speeches[..i];
        assert (speeches[..i] + speeches[i + 1..])[i..] == speeches[i + 1..];
        speeches := speeches[..i] + speeches[i + 1..];
        i := i - 1;
      } else {
        assert speeches[..i + 1] == speeches[..i] + [speeches[i]];
      }
      i := i + 1;
    }
    assert speeches[..i] == speeches;
  }

  /** Exactly the segments that are long enough stay, in order. */
  lemma {:induction false} KeptIsRight(s: seq<Segment>, least: int, limit: int)
    requires Sorted(s, limit)
    ensures Sorted(Kept(s, least), limit)
    ensures Kept(s, least) != [] ==> s != [] && s[0].start <= Kept(s, least)[0].start
    ensures forall x :: x in Kept(s, least) <==> x in s && x.end - x.start >= least
  {
    if s != [] {
      assert s == [s[0]] + s[1..];
      assert Sorted(s[1..], limit);
      KeptIsRight(s[1..], least, limit);
      var rest := Kept(s[1..], least);
      if rest != [] { assert s[0].end <= s[1].start; }
      SortedCons(s[0], rest, limit);
    }
  }

  // ---- padding ----

  /** By how much both sides of the gap behind segment `i` move into it. */
  function Share(s: seq<Segment>, i: nat, pad: nat): int
    requires i + 1 < |s|
  {
    var silence := s[i + 1].start - s[i].end;
    if silence < 2 * pad then silence / 2 else pad
  }

  /** Segment `i` with its padding: half the gap on a side where the paddings would meet. */
  function Padded(s: seq<Segment>, i: nat, pad: nat, length: int): Segment
    requires i < |s|
  {
    Segment(if i == 0 then (if s[0].start > pad then s[0].start - pad else 0) else s[i].start - Share(s, i - 1, pad),
            if i + 1 < |s| then s[i].end + Share(s, i, pad)
            else if s[i].end + pad < length then s[i].end + pad else length)
  }

  lemma PadFits(s: seq<Segment>, i: nat, pad: nat, length: int)
    requires Sorted(s, length) && i + 1 < |s|
    ensures 0 <= Share(s, i, pad) <= pad
    ensures s[i].end + Share(s, i, pad) <= s[i + 1].start - Share(s, i, pad)
  {
  }

  /** Padding keeps the segments ordered and inside the audio; each one only grows, and by no more
      than the padding on either side. */
  lemma PaddedIsRight(s: seq<Segment>, i: nat, pad: nat, length: int)
    requires Sorted(s, length) && i < |s|
    ensures var x := Padded(s, i, pad, length);
            && 0 <= x.start <= s[i].start <= s[i].end <= x.end <= length
            && x.start >= s[i].start - pad && x.end <= s[i].end + pad
            && (i + 1 < |s| ==> x.end <= Padded(s, i + 1, pad, length).start)
  {
    if i > 0 { PadFits(s, i - 1, pad, length); }
    if i + 1 < |s| { PadFits(s, i, pad, length); }
  }

  // ---- time ----

  function CsToSamples(cs: int): int {
    (cs as real / 100.0 * SAMPLE_RATE as real + 0.5).Floor
  }

  function SamplesToCs(samples: int): int {
    (samples as real / SAMPLE_RATE as real * 100.0 + 0.5).Floor
  }

  /** A centisecond is 160 samples, rounded to the nearest and half up; the other way is exact. */
  lemma TimesAreExact(x: int)
    ensures CsToSamples(x) == 160 * x
    ensures 160 * SamplesToCs(x) - 80 <= x < 160 * SamplesToCs(x) + 80
  {
  }

  lemma RoundTrip(cs: int)
    ensures SamplesToCs(CsToSamples(cs)) == cs
  {
    TimesAreExact(cs);
    TimesAreExact(CsToSamples(cs));
  }

  lemma CsMonotone(x: int, y: int)
    requires x <= y
    ensures SamplesToCs(x) <= SamplesToCs(y)
  {
    TimesAreExact(x);
    TimesAreExact(y);
  }

  // ---- the last loop ----

  predicate InCs(a: Segment, b: Segment) {
    b.start == SamplesToCs(a.start) && b.end == SamplesToCs(a.end)
  }

  /** Segments `0..i` padded, and the start of segment `i` as well. */
  ghost predicate PadInv(kept: seq<Segment>, s: seq<Segment>, i: nat, pad: nat, length: int) {
    && |s| == |kept| && i <= |kept|
    && (forall j :: 0 <= j < i ==> s[j] == Padded(kept, j, pad, length))
    && (i < |kept| ==> s[i] == if i == 0 then kept[0] else Segment(Padded(kept, i, pad, length).start, kept[i].end))
    && (forall j :: i < j < |kept| ==> s[j] == kept[j])
  }

  method PadOne(ghost kept: seq<Segment>, s: seq<Segment>, i: nat, pad: nat, length: int) returns (speeches: seq<Segment>)
    requires Sorted(kept, length) && i < |kept| && PadInv(kept, s, i, pad, length)
    ensures PadInv(kept, speeches, i + 1, pad, length)
  {
    speeches := s;
    if i == 0 {
      speeches := speeches[0 := Segment(if speeches[0].start > pad then speeches[0].start - pad else 0, speeches[0].end)];
    }
    if i < |speeches| - 1 {
      PadFits(kept, i, pad, length);
      var silence := speeches[i + 1].start - speeches[i].end;
      if silence < 2 * pad {
        var h := silence / 2;
        speeches := speeches[i := Segment(speeches[i].start, speeches[i].end + h)];
        speeches := speeches[i + 1 := Segment(if speeches[i + 1].start > h then speeches[i + 1].start - h else 0, speeches[i + 1].end)];
      } else {
        speeches := speeches[i := Segment(speeches[i].start, if speeches[i].end + pad < length then speeches[i].end + pad else length)];
        speeches := speeches[i + 1 := Segment(if speeches[i + 1].start > pad then speeches[i + 1].start - pad else 0, speeches[i + 1].end)];
      }
    } else {
      speeches := speeches[i := Segment(speeches[i].start, if speeches[i].end + pad < length then speeches[i].end + pad else length)];
    }
  }

  method PadAndConvert(kept: seq<Segment>, pad: nat, length: int) returns (speeches: seq<Segment>, segments: seq<Segment>)
    requires Sorted(kept, length)
    ensures |speeches| == |segments| == |kept|
    ensures forall j :: 0 <= j < |kept| ==> speeches[j] == Padded(kept, j, pad, length)
    ensures forall j :: 0 <= j < |kept| ==> InCs(speeches[j], segments[j])
  {
    hide SamplesToCs, Padded;
    speeches, segments := kept, [];
    var i := 0;
    while i < |speeches|
      invariant PadInv(kept, speeches, i, pad, length) && |segments| == i
      invariant forall j :: 0 <= j < i ==> InCs(speeches[j], segments[j])
    {
      speeches := PadOne(kept, speeches, i, pad, length);
      segments := segments + [Segment(SamplesToCs(speeches[i].start), SamplesToCs(speeches[i].end))];
      i := i + 1;
    }
  }

  // ---- from probabilities to segments ----

  /** In a segment too short to keep. */
  ghost predicate InShort(s: seq<Segment>, least: int, x: int) {
    exists j :: 0 <= j < |s| && s[j].end - s[j].start < least && s[j].start <= x < s[j].end
  }

  lemma KeptOrShort(s: seq<Segment>, least: int, limit: int, x: int)
    requires Sorted(s, limit) && InSome(s, x)
    ensures InSome(Kept(s, least), x) || InShort(s, least, x)
  {
    var j :| 0 <= j < |s| && s[j].start <= x < s[j].end;
    KeptIsRight(s, least, limit);
    if s[j].end - s[j].start >= least {
      assert s[j] in s && s[j] in Kept(s, least);
      var k :| 0 <= k < |Kept(s, least)| && Kept(s, least)[k] == s[j];
    }
  }

  lemma PaddedCovers(kept: seq<Segment>, padded: seq<Segment>, pad: nat, length: int, x: int)
    requires Sorted(kept, length) && |padded| == |kept| && InSome(kept, x)
    requires forall j :: 0 <= j < |kept| ==> padded[j] == Padded(kept, j, pad, length)
    ensures InSome(padded, x)
  {
    var j :| 0 <= j < |kept| && kept[j].start <= x < kept[j].end;
    PaddedIsRight(kept, j, pad, length);
    assert padded[j].start <= x < padded[j].end;
  }

  /** The segmenter's segments in samples: scanned, merged, filtered, padded. */
  function FinalSegments(c: Config, probs: seq<real>): (r: seq<Segment>) {
    var kept := Kept(Merged(ScanResult(c, probs).speeches), c.minSpeech);
    seq(|kept|, j requires 0 <= j < |kept| => Padded(kept, j, c.pad, Sample(c, |probs|)))
  }

  /** Where the speech of a window ends up: in a final segment, or in what was dropped for being
      short before or after merging, or at the place of a cut. */
  ghost predicate Accounted(c: Config, probs: seq<real>, x: int) {
    var r := ScanResult(c, probs);
    || InSome(FinalSegments(c, probs), x)
    || InSome(r.dropped, x) || CutAt(c, r.speeches, x) || InShort(Merged(r.speeches), c.minSpeech, x)
  }

  /** What the scan catches is in a final segment or dropped for its length. */
  lemma CaughtIsAccounted(c: Config, probs: seq<real>, x: int)
    requires c.window > 0 && Caught(c, ScanResult(c, probs), x)
    ensures Accounted(c, probs, x)
  {
    hide ScanResult, InSome, CutAt, InShort, Merged, Kept, Padded, Sample;
    var limit, raw := Sample(c, |probs|), ScanResult(c, probs).speeches;
    ScanIsRight(c, probs);
    MergedIsRight(raw, limit);
    KeptIsRight(Merged(raw), c.minSpeech, limit);
    if InSome(raw, x) {
      MergedCovers(raw, limit, x);
      KeptOrShort(Merged(raw), c.minSpeech, limit, x);
      if InSome(Kept(Merged(raw), c.minSpeech), x) {
        PaddedCovers(Kept(Merged(raw), c.minSpeech), FinalSegments(c, probs), c.pad, limit, x);
      }
    }
  }

  /** The segmenter, for all parameters: ordered segments that do not overlap and lie inside the
      audio, in samples and in centiseconds; and speech is unaccounted for only in windows that
      count as silence as well and end a segment or burst. */
  method SegmentsFromProbs(p: Params, probs: seq<real>, window: nat) returns (speeches: seq<Segment>, segments: seq<Segment>)
    requires window > 0 && p.maxSpeechS >= 0.0
    ensures speeches == FinalSegments(Configure(p, window), probs)
    ensures Sorted(speeches, Sample(Configure(p, window), |probs|))
    ensures Sorted(segments, SamplesToCs(Sample(Configure(p, window), |probs|)))
    ensures |segments| == |speeches| && forall j :: 0 <= j < |speeches| ==> InCs(speeches[j], segments[j])
    ensures var c := Configure(p, window);
            forall k: nat :: Speech(c, probs, k) ==>
              Accounted(c, probs, Sample(c, k)) || Lost(c, probs, ScanResult(c, probs), k)
  {
    hide AllJustified, AllBursts, Accounted, InCs, Padded, ScanResult, Lost, FinalSegments, Sorted, Merged, Kept;
    var c := Configure(p, window);
    ghost var limit := Sample(c, |probs|);
    SampleMul(c, |probs|);
    ScanIsRight(c, probs);
    speeches := Scan(c, probs);
    MergedIsRight(speeches, limit);
    speeches := Merge(speeches);
    KeptIsRight(speeches, c.minSpeech, limit);
    speeches := DropShort(speeches, c.minSpeech);
    ghost var kept := speeches;
    speeches, segments := PadAndConvert(speeches, c.pad, |probs| * window);
    PaddedSorted(kept, speeches, c.pad, limit);
    CsSorted(speeches, segments, limit);
    FinalIs(c, probs, speeches);
    AllAccounted(c, probs);
  }

  lemma FinalIs(c: Config, probs: seq<real>, final: seq<Segment>)
    requires var kept := Kept(Merged(ScanResult(c, probs).speeches), c.minSpeech);
             |final| == |kept|
             && forall j :: 0 <= j < |kept| ==> final[j] == Padded(kept, j, c.pad, Sample(c, |probs|))
    ensures final == FinalSegments(c, probs)
  {
  }

  lemma AllAccounted(c: Config, probs: seq<real>)
    requires c.window > 0
    ensures forall k: nat :: Speech(c, probs, k) ==>
              Accounted(c, probs, Sample(c, k)) || Lost(c, probs, ScanResult(c, probs), k)
  {
    hide Accounted, ScanResult, Caught, Lost;
    forall k: nat | Speech(c, probs, k)
      ensures Accounted(c, probs, Sample(c, k)) || Lost(c, probs, ScanResult(c, probs), k)
    {
      CaughtOrLost(c, probs, k);
      if Caught(c, ScanResult(c, probs), Sample(c, k)) { CaughtIsAccounted(c, probs, Sample(c, k)); }
    }
  }

  lemma PaddedSorted(kept: seq<Segment>, final: seq<Segment>, pad: nat, length: int)
    requires Sorted(kept, length) && |final| == |kept|
    requires forall j :: 0 <= j < |kept| ==> final[j] == Padded(kept, j, pad, length)
    ensures Sorted(final, length)
  {
    forall j | 0 <= j < |final| ensures 0 <= final[j].start <= final[j].end <= length {
      PaddedIsRight(kept, j, pad, length);
    }
    forall j, k | 0 <= j < k < |final| ensures final[j].end <= final[k].start {
      PaddedBefore(kept, j, k, pad, length);
    }
  }

  lemma {:induction false} PaddedBefore(kept: seq<Segment>, j: nat, k: nat, pad: nat, length: int)
    requires Sorted(kept, length) && j < k < |kept|
    ensures Padded(kept, j, pad, length).end <= Padded(kept, k, pad, length).start
    decreases k
  {
    PaddedIsRight(kept, k - 1, pad, length);
    if j < k - 1 { PaddedBefore(kept, j, k - 1, pad, length); }
  }

  lemma CsSorted(s: seq<Segment>, t: seq<Segment>, limit: int)
    requires Sorted(s, limit) && |t| == |s| && forall j :: 0 <= j < |s| ==> InCs(s[j], t[j])
    ensures Sorted(t, SamplesToCs(limit))
  {
    hide SamplesToCs;
    forall j | 0 <= j < |t| ensures 0 <= t[j].start <= t[j].end <= SamplesToCs(limit) {
      assert InCs(s[j], t[j]);
      TimesAreExact(0);
      CsMonotone(0, s[j].start);
      CsMonotone(s[j].start, s[j].end);
      CsMonotone(s[j].end, limit);
    }
    forall j, k | 0 <= j < k < |t| ensures t[j].end <= t[k].start {
      assert InCs(s[j], t[j]) && InCs(s[k], t[k]);
      CsMonotone(s[j].end, s[k].start);
    }
  }
}
