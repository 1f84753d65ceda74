/** The table from time in the speech-only audio back to time in the original audio. */
module VadTimeMap {
  import opened Arith
  import opened VadScan
  import opened VadSegments

  /** Times in centiseconds. */
  datatype Mapping = Mapping(processed: int, original: int)

  const SILENCE_SAMPLES: nat := 1600
  const MIN_SEGMENT_LENGTH: int := 100
  const POINT_INTERVAL: int := 20

  // ---- interpolation ----

  /** `a` of `v` steps along a stretch of length `d`, rounded down. */
  function Along(a: int, d: int, v: int): int
    requires v > 0
  {
    a * d / v
  }

  lemma DivUp(x: int, y: int, v: int)
    requires v > 0 && x <= y
    ensures x / v <= y / v
  {
    var p, q := x / v, y / v;
    assert x == p * v + x % v && y == q * v + y % v;
    assert (q + 1) * v == q * v + v;
    if p > q { MulUp(q + 1, p, v); }
  }

  lemma MulUp(x: int, y: int, d: int)
    requires x <= y && d >= 0
    ensures x * d <= y * d
  {
    assert (y - x) * d >= 0;
    assert y * d == x * d + (y - x) * d;
  }

  lemma AlongUp(a: int, b: int, d: int, v: int)
    requires v > 0 && d >= 0 && a <= b
    ensures Along(a, d, v) <= Along(b, d, v)
  {
    MulUp(a, b, d);
    DivUp(a * d, b * d, v);
  }

  lemma AlongEnds(d: int, v: int)
    requires v > 0
    ensures Along(0, d, v) == 0 && Along(v, d, v) == d
  {
    assert v * d == d * v;
    ModUnique(v * d, v, d, 0);
    ModUnique(0 * d, v, 0, 0);
  }

  lemma AlongInside(a: int, d: int, v: int)
    requires v > 0 && d >= 0 && 0 <= a <= v
    ensures 0 <= Along(a, d, v) <= d
  {
    AlongEnds(d, v);
    AlongUp(0, a, d, v);
    AlongUp(a, v, d, v);
  }

  // ---- the points ----

  /** Point `j` inside a segment `o` of the original that is `v` in the processed audio. */
  function InnerPoint(o: Segment, v: Segment, j: int): Mapping
    requires v.start < v.end
  {
    Mapping(v.start + j * POINT_INTERVAL, o.start + Along(j * POINT_INTERVAL, o.end - o.start, v.end - v.start))
  }

  /** The first `n` points inside the segment. */
  function InnerPoints(o: Segment, v: Segment, n: nat): seq<Mapping>
    requires v.start < v.end
  {
    if n == 0 then [] else InnerPoints(o, v, n - 1) + [InnerPoint(o, v, n)]
  }

  function InnerCount(v: Segment): (n: int)
    requires v.end - v.start > MIN_SEGMENT_LENGTH
    ensures n >= 4 && v.start + n * POINT_INTERVAL < v.end
  {
    (v.end - v.start) / POINT_INTERVAL - 1
  }

  function SegmentPoints(o: Segment, v: Segment): seq<Mapping> {
    [Mapping(v.start, o.start), Mapping(v.end, o.end)]
    + if v.end - v.start > MIN_SEGMENT_LENGTH then InnerPoints(o, v, InnerCount(v)) else []
  }

  /** The samples of segment `i` that are copied: with the overlap behind it, except the last. */
  function Length(segs: seq<Segment>, i: nat, overlap: nat, nSamples: int): int
    requires i < |segs|
  {
    var start := CsToSamples(segs[i].start);
    var end := CsToSamples(segs[i].end) + if i + 1 < |segs| then overlap else 0;
    (if end < nSamples then end else nSamples) - (if start < nSamples - 1 then start else nSamples - 1)
  }

  function SilenceAfter(segs: seq<Segment>, i: nat): nat
    requires i < |segs|
  {
    if i + 1 < |segs| then SILENCE_SAMPLES else 0
  }

  /** The points segment `i` adds when `offset` samples have been copied before it. */
  function PointsAt(segs: seq<Segment>, i: nat, overlap: nat, nSamples: int, offset: int): seq<Mapping>
    requires i < |segs|
  {
    var n := Length(segs, i, overlap, nSamples);
    if n <= 0 then []
    else
      SegmentPoints(segs[i], Segment(SamplesToCs(offset), SamplesToCs(offset + n)))
      + if i + 1 < |segs| then
          [Mapping(SamplesToCs(offset + n), segs[i].end),
           Mapping(SamplesToCs(offset + n + SILENCE_SAMPLES), segs[i + 1].start)]
        else []
  }

  function Offset(segs: seq<Segment>, n: nat, overlap: nat, nSamples: int): nat
    requires n <= |segs|
  {
    if n == 0 then 0
    else
      var length := Length(segs, n - 1, overlap, nSamples);
      Offset(segs, n - 1, overlap, nSamples) + if length > 0 then length + SilenceAfter(segs, n - 1) else 0
  }

  function Points(segs: seq<Segment>, n: nat, overlap: nat, nSamples: int): seq<Mapping>
    requires n <= |segs|
  {
    if n == 0 then []
    else Points(segs, n - 1, overlap, nSamples) + PointsAt(segs, n - 1, overlap, nSamples, Offset(segs, n - 1, overlap, nSamples))
  }

  // ---- the code ----

  /** The guard against points beyond the segment never fires. */
  method AddInnerPoints(table: seq<Mapping>, o: Segment, v: Segment) returns (r: seq<Mapping>)
    requires v.end - v.start > MIN_SEGMENT_LENGTH
    ensures r == table + InnerPoints(o, v, InnerCount(v))
  {
    r := table;
    var numPoints := (v.end - v.start) / POINT_INTERVAL - 1;
    var j := 1;
    while j <= numPoints
      invariant 1 <= j <= numPoints + 1
      invariant r == table + InnerPoints(o, v, j - 1)
    {
      var vadTime := v.start + j * POINT_INTERVAL;
      if vadTime >= v.end {
        assert false;
      }
      var vadElapsed := vadTime - v.start;
      var vadTotal := v.end - v.start;
      var origTotal := o.end - o.start;
      r := r + [Mapping(vadTime, o.start + vadElapsed * origTotal / vadTotal)];
      j := j + 1;
    }
  }

  /** The points of one segment. */
  method AddSegment(table: seq<Mapping>, segs: seq<Segment>, i: nat, overlap: nat, nSamples: int, offset: nat)
    returns (r: seq<Mapping>, next: nat)
    requires i < |segs|
    ensures r == table + PointsAt(segs, i, overlap, nSamples, offset)
    ensures var n := Length(segs, i, overlap, nSamples);
            next == offset + if n > 0 then n + SilenceAfter(segs, i) else 0
  {
    hide SamplesToCs, CsToSamples, SegmentPoints;
    r, next := table, offset;
    var start := CsToSamples(segs[i].start);
    var end := CsToSamples(segs[i].end);
    if i < |segs| - 1 {
      end := end + overlap;
    }
    start := if start < nSamples - 1 then start else nSamples - 1;
    end := if end < nSamples then end else nSamples;
    var length := end - start;
    if length > 0 {
      var v := Segment(SamplesToCs(next), SamplesToCs(next + length));
      r := AddSegmentPoints(r, segs[i], v);
      next := next + length;
      if i < |segs| - 1 {
        r := r + [Mapping(SamplesToCs(next), segs[i].end)];
        r := r + [Mapping(SamplesToCs(next + SILENCE_SAMPLES), segs[i + 1].start)];
        next := next + SILENCE_SAMPLES;
      }
    }
  }

  method AddSegmentPoints(table: seq<Mapping>, o: Segment, v: Segment) returns (r: seq<Mapping>)
    ensures r == table + SegmentPoints(o, v)
  {
    hide InnerPoints;
    r := table + [Mapping(v.start, o.start)];
    r := r + [Mapping(v.end, o.end)];
    if v.end - v.start > MIN_SEGMENT_LENGTH {
      r := AddInnerPoints(r, o, v);
    }
  }

  /** The table before it is sorted. */
  method BuildTable(segs: seq<Segment>, overlap: nat, nSamples: int) returns (table: seq<Mapping>, offset: nat)
    ensures table == Points(segs, |segs|, overlap, nSamples)
    ensures offset == Offset(segs, |segs|, overlap, nSamples)
  {
    hide PointsAt, Length;
    table, offset := [], 0;
    var i := 0;
    while i < |segs|
      invariant i <= |segs|
      invariant table == Points(segs, i, overlap, nSamples) && offset == Offset(segs, i, overlap, nSamples)
    {
      table, offset := AddSegment(table, segs, i, overlap, nSamples, offset);
      i := i + 1;
    }
  }

  // ---- the points are monotone ----

  /** Later in the processed audio is not earlier in the original. */
  ghost predicate Monotone(t: seq<Mapping>) {
    forall j, k :: 0 <= j < |t| && 0 <= k < |t| && t[j].processed < t[k].processed ==> t[j].original <= t[k].original
  }

  /** All points lie in the given ranges of processed and original time. */
  ghost predicate Within(t: seq<Mapping>, p0: int, p1: int, o0: int, o1: int) {
    forall j :: 0 <= j < |t| ==> p0 <= t[j].processed <= p1 && o0 <= t[j].original <= o1
  }

  /** Points that follow in both times. */
  lemma MonotoneConcat(a: seq<Mapping>, b: seq<Mapping>, p0: int, p: int, p1: int, o0: int, o: int, o1: int)
    requires Monotone(a) && Monotone(b) && Within(a, p0, p, o0, o) && Within(b, p, p1, o, o1)
    requires p0 <= p <= p1 && o0 <= o <= o1
    ensures Monotone(a + b) && Within(a + b, p0, p1, o0, o1)
  {
  }

  lemma {:induction false} InnerMonotone(o: Segment, v: Segment, n: nat)
    requires o.start <= o.end && v.start + n * POINT_INTERVAL < v.end
    ensures var last := o.start + Along(n * POINT_INTERVAL, o.end - o.start, v.end - v.start);
            && o.start <= last <= o.end
            && Monotone(InnerPoints(o, v, n))
            && Within(InnerPoints(o, v, n), v.start, v.start + n * POINT_INTERVAL, o.start, last)
  {
    hide Along;
    AlongInside(n * POINT_INTERVAL, o.end - o.start, v.end - v.start);
    if n > 0 {
      InnerMonotone(o, v, n - 1);
      AlongUp((n - 1) * POINT_INTERVAL, n * POINT_INTERVAL, o.end - o.start, v.end - v.start);
      AddLater(InnerPoints(o, v, n - 1), InnerPoint(o, v, n), v.start, v.start + (n - 1) * POINT_INTERVAL, o.start,
               o.start + Along((n - 1) * POINT_INTERVAL, o.end - o.start, v.end - v.start));
    }
  }

  lemma AddLater(a: seq<Mapping>, m: Mapping, p0: int, p: int, o0: int, o: int)
    requires Monotone(a) && Within(a, p0, p, o0, o) && p0 <= p <= m.processed && o0 <= o <= m.original
    ensures Monotone(a + [m]) && Within(a + [m], p0, m.processed, o0, m.original)
  {
    MonotoneConcat(a, [m], p0, p, m.processed, o0, o, m.original);
  }

  lemma SegmentMonotone(o: Segment, v: Segment)
    requires o.start <= o.end && v.start <= v.end
    ensures Monotone(SegmentPoints(o, v)) && Within(SegmentPoints(o, v), v.start, v.end, o.start, o.end)
  {
    if v.end - v.start > MIN_SEGMENT_LENGTH {
      InnerMonotone(o, v, InnerCount(v));
    }
  }

  lemma PointsAtMonotone(segs: seq<Segment>, i: nat, overlap: nat, nSamples: int, offset: int, limit: int)
    requires Sorted(segs, limit) && i < |segs|
    ensures var n := Length(segs, i, overlap, nSamples);
            var t := PointsAt(segs, i, overlap, nSamples, offset);
            var end := offset + if n > 0 then n + SilenceAfter(segs, i) else 0;
            Monotone(t) && SamplesToCs(offset) <= SamplesToCs(end)
            && Within(t, SamplesToCs(offset), SamplesToCs(end), segs[i].start, if i + 1 < |segs| then segs[i + 1].start else limit)
  {
    hide SamplesToCs, SegmentPoints, Length;
    var n := Length(segs, i, overlap, nSamples);
    if n > 0 {
      CsMonotone(offset, offset + n);
      CsMonotone(offset + n, offset + n + SILENCE_SAMPLES);
      var v := Segment(SamplesToCs(offset), SamplesToCs(offset + n));
      SegmentMonotone(segs[i], v);
      if i + 1 < |segs| {
        var tail := [Mapping(SamplesToCs(offset + n), segs[i].end),
                     Mapping(SamplesToCs(offset + n + SILENCE_SAMPLES), segs[i + 1].start)];
        MonotoneConcat(SegmentPoints(segs[i], v), tail, v.start, v.end, SamplesToCs(offset + n + SILENCE_SAMPLES),
                       segs[i].start, segs[i].end, segs[i + 1].start);
      } else {
        assert SegmentPoints(segs[i], v) + [] == SegmentPoints(segs[i], v);
      }
    }
  }

  /** For ordered segments the points are monotone, whichever of them were skipped. */
  lemma {:induction false} PointsMonotone(segs: seq<Segment>, n: nat, overlap: nat, nSamples: int, limit: int)
    requires Sorted(segs, limit) && n <= |segs|
    ensures var t := Points(segs, n, overlap, nSamples);
            Monotone(t)
            && 0 <= SamplesToCs(Offset(segs, n, overlap, nSamples))
            && Within(t, 0, SamplesToCs(Offset(segs, n, overlap, nSamples)), 0,
                      if n < |segs| then segs[n].start else if n == 0 then 0 else limit)
  {
    hide SamplesToCs, Length, PointsAt;
    if n == 0 {
      TimesAreExact(0);
    } else {
      var o := Offset(segs, n - 1, overlap, nSamples);
      PointsMonotone(segs, n - 1, overlap, nSamples, limit);
      PointsAtMonotone(segs, n - 1, overlap, nSamples, o, limit);
      MonotoneConcat(Points(segs, n - 1, overlap, nSamples), PointsAt(segs, n - 1, overlap, nSamples, o),
                     0, SamplesToCs(o), SamplesToCs(Offset(segs, n, overlap, nSamples)),
                     0, segs[n - 1].start, if n < |segs| then segs[n].start else limit);
    }
  }

  // ---- sorted, duplicates removed ----

  /** What sorting by processed time may return; equal times may come in any order. */
  ghost predicate SortOf(s: seq<Mapping>, t: seq<Mapping>) {
    && multiset(s) == multiset(t)
    && forall j, k :: 0 <= j < k < |s| ==> s[j].processed <= s[k].processed
  }

  /** Of every run of equal processed times only the first entry stays. */
  function Unique(s: seq<Mapping>): (r: seq<Mapping>)
    ensures s != [] ==> r != []
  {
    if s == [] then []
    else
      var r := Unique(s[..|s| - 1]);
      if r != [] && r[|r| - 1].processed == s[|s| - 1].processed then r else r + [s[|s| - 1]]
  }

  ghost predicate Table(t: seq<Mapping>) {
    forall j, k :: 0 <= j < k < |t| ==> t[j].processed < t[k].processed && t[j].original <= t[k].original
  }

  lemma {:induction false} UniqueIsRight(s: seq<Mapping>)
    requires forall j, k :: 0 <= j < k < |s| ==> s[j].processed <= s[k].processed
    ensures var r := Unique(s);
            && (forall m :: m in r ==> m in s)
            && (forall j, k :: 0 <= j < k < |r| ==> r[j].processed < r[k].processed)
            && (s != [] ==> r[|r| - 1].processed == s[|s| - 1].processed)
  {
    if s != [] {
      var q := s[..|s| - 1];
      UniqueIsRight(q);
      assert forall m :: m in q ==> m in s;
      var p := Unique(q);
      if p != [] {
        assert p[|p| - 1].processed <= s[|s| - 1].processed;
      }
    }
  }

  lemma {:induction false} UniqueKeepsTimes(s: seq<Mapping>, k: nat)
    requires k < |s|
    ensures exists j :: 0 <= j < |Unique(s)| && Unique(s)[j].processed == s[k].processed
    decreases |s|
  {
    var p, r := Unique(s[..|s| - 1]), Unique(s);
    if k < |s| - 1 {
      UniqueKeepsTimes(s[..|s| - 1], k);
      var j :| 0 <= j < |p| && p[j].processed == s[..|s| - 1][k].processed;
      assert r[j].processed == s[k].processed;
    } else {
      assert r[|r| - 1].processed == s[k].processed;
    }
  }

  /** The table under any tie-breaking: processed times strictly increase, original times do not
      decrease, no processed time is lost and every entry is one of the points. */
  lemma TableIsRight(points: seq<Mapping>, sorted: seq<Mapping>)
    requires Monotone(points) && SortOf(sorted, points)
    ensures Table(Unique(sorted))
    ensures forall m :: m in Unique(sorted) ==> m in points
    ensures forall p :: p in points ==> exists j :: 0 <= j < |Unique(sorted)| && Unique(sorted)[j].processed == p.processed
  {
    var r := Unique(sorted);
    UniqueIsRight(sorted);
    forall m | m in r ensures m in points {
      assert m in multiset(sorted);
    }
    forall j, k | 0 <= j < k < |r| ensures r[j].original <= r[k].original {
      assert r[j] in r && r[k] in r;
      var a :| 0 <= a < |points| && points[a] == r[j];
      var b :| 0 <= b < |points| && points[b] == r[k];
    }
    forall p | p in points ensures exists j :: 0 <= j < |r| && r[j].processed == p.processed {
      assert p in multiset(sorted);
      var k :| 0 <= k < |sorted| && sorted[k] == p;
      UniqueKeepsTimes(sorted, k);
    }
  }

  // ---- looking a time up ----

  /** The first entry at or after the time. */
  function LowerBound(t: seq<Mapping>, time: int): (k: nat)
    ensures k <= |t|
    ensures forall j :: 0 <= j < k ==> t[j].processed < time
    ensures k < |t| ==> t[k].processed >= time
  {
    if t == [] || t[0].processed >= time then 0 else 1 + LowerBound(t[1..], time)
  }

  /** The original time for a processed time. */
  function ToOriginal(time: int, t: seq<Mapping>): int
    requires Table(t)
  {
    if t == [] then time
    else if time <= t[0].processed then t[0].original
    else if time >= t[|t| - 1].processed then t[|t| - 1].original
    else
      var k := LowerBound(t, time);
      if t[k].processed == time then t[k].original
      else Interpolated(time, t[k - 1], t[k])
  }

  function Interpolated(time: int, a: Mapping, b: Mapping): int
    requires a.processed < b.processed
  {
    a.original + Along(time - a.processed, b.original - a.original, b.processed - a.processed)
  }

  lemma InterpolatedInside(time: int, a: Mapping, b: Mapping)
    requires a.processed <= time <= b.processed && a.processed < b.processed && a.original <= b.original
    ensures a.original <= Interpolated(time, a, b) <= b.original
    ensures time == a.processed ==> Interpolated(time, a, b) == a.original
    ensures time == b.processed ==> Interpolated(time, a, b) == b.original
  {
    AlongInside(time - a.processed, b.original - a.original, b.processed - a.processed);
    AlongEnds(b.original - a.original, b.processed - a.processed);
  }

  lemma InterpolatedUp(s: int, time: int, a: Mapping, b: Mapping)
    requires a.processed <= s <= time <= b.processed && a.processed < b.processed && a.original <= b.original
    ensures Interpolated(s, a, b) <= Interpolated(time, a, b)
  {
    AlongUp(s - a.processed, time - a.processed, b.original - a.original, b.processed - a.processed);
  }

  /** Where a time falls: before, in, or after the table. */
  lemma Located(time: int, t: seq<Mapping>) returns (k: nat)
    requires Table(t) && t != [] && t[0].processed < time < t[|t| - 1].processed
    ensures 0 < k < |t| && t[k - 1].processed < time <= t[k].processed
    ensures ToOriginal(time, t) == Interpolated(time, t[k - 1], t[k])
    ensures t[k - 1].original <= ToOriginal(time, t) <= t[k].original
  {
    k := LowerBound(t, time);
    InterpolatedInside(time, t[k - 1], t[k]);
  }

  lemma TableOrder(t: seq<Mapping>, j: nat, k: nat)
    requires Table(t) && j < |t| && k < |t|
    ensures j < k <==> t[j].processed < t[k].processed
    ensures j <= k ==> t[j].original <= t[k].original
  {
  }

  /** Exact at the points of the table. */
  lemma ExactAtPoints(t: seq<Mapping>, k: nat)
    requires Table(t) && k < |t|
    ensures ToOriginal(t[k].processed, t) == t[k].original
  {
    if 0 < k < |t| - 1 {
      var j := Located(t[k].processed, t);
      TableOrder(t, j, k);
      TableOrder(t, j - 1, k);
    }
  }

  /** So a point's processed time is taken to its original time, or to that of another point with
      the same processed time. */
  lemma PointsMapToPoints(points: seq<Mapping>, sorted: seq<Mapping>, p: Mapping) returns (q: Mapping)
    requires Monotone(points) && SortOf(sorted, points) && p in points
    ensures q in points && q.processed == p.processed
    ensures Table(Unique(sorted)) && ToOriginal(p.processed, Unique(sorted)) == q.original
  {
    TableIsRight(points, sorted);
    var t := Unique(sorted);
    var k :| 0 <= k < |t| && t[k].processed == p.processed;
    q := t[k];
    assert q in t;
    ExactAtPoints(t, k);
  }

  lemma StaysInside(time: int, t: seq<Mapping>)
    requires Table(t) && t != []
    ensures t[0].original <= ToOriginal(time, t) <= t[|t| - 1].original
  {
    if t[0].processed < time < t[|t| - 1].processed {
      var k := Located(time, t);
      assert k - 1 > 0 ==> t[0].original <= t[k - 1].original;
      assert k < |t| - 1 ==> t[k].original <= t[|t| - 1].original;
    }
  }

  /** Time never runs backwards. */
  lemma MapIsMonotone(s: int, time: int, t: seq<Mapping>)
    requires Table(t) && s <= time
    ensures ToOriginal(s, t) <= ToOriginal(time, t)
  {
    if t != [] {
      StaysInside(s, t);
      StaysInside(time, t);
      if t[0].processed < s && time < t[|t| - 1].processed {
        var j := Located(s, t);
        var k := Located(time, t);
        TableOrder(t, j - 1, k);
        if j == k {
          InterpolatedUp(s, time, t[k - 1], t[k]);
        } else {
          TableOrder(t, j, k - 1);
        }
      }
    }
  }

  lemma BoundedBy(t: seq<Mapping>, m: Mapping, p0: int, p1: int, o0: int, o1: int)
    requires Within(t, p0, p1, o0, o1) && m in t
    ensures o0 <= m.original <= o1
  {
  }

  /** From segments to mapped time: for any ordered segments, any audio length and any order sort
      leaves equal times in, the map is monotone and stays inside the original audio. */
  lemma SegmentsToTime(segs: seq<Segment>, overlap: nat, nSamples: int, limit: int, sorted: seq<Mapping>, s: int, time: int)
    requires Sorted(segs, limit) && limit >= 0 && SortOf(sorted, Points(segs, |segs|, overlap, nSamples)) && s <= time
    ensures Table(Unique(sorted))
    ensures ToOriginal(s, Unique(sorted)) <= ToOriginal(time, Unique(sorted))
    ensures sorted != [] ==> 0 <= ToOriginal(s, Unique(sorted)) <= limit
  {
    hide ToOriginal, Points;
    var t := Unique(sorted);
    PointsMonotone(segs, |segs|, overlap, nSamples, limit);
    TableIsRight(Points(segs, |segs|, overlap, nSamples), sorted);
    MapIsMonotone(s, time, t);
    if sorted != [] {
      StaysInside(s, t);
      assert t[0] in t && t[|t| - 1] in t;
      var points, end := Points(segs, |segs|, overlap, nSamples), SamplesToCs(Offset(segs, |segs|, overlap, nSamples));
      BoundedBy(points, t[0], 0, end, 0, if segs == [] then 0 else limit);
      BoundedBy(points, t[|t| - 1], 0, end, 0, if segs == [] then 0 else limit);
    }
  }
}
