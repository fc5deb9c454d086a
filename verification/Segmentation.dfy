/** Cutting a series into segments around alignment points, by midpoints and by nearest lookup. */
module Segmentation {
  import opened Sequences
  import opened ClockAnalysis

  ghost predicate Ascending(xs: seq<int>)
  {
    forall i, j :: 0 <= i < j < |xs| ==> xs[i] < xs[j]
  }

  ghost predicate NonDescending(xs: seq<int>)
  {
    forall i, j :: 0 <= i <= j < |xs| ==> xs[i] <= xs[j]
  }

  /** Half of a timedelta: the integer quotient is rounded toward zero. */
  function Half(x: int): (h: int)
    ensures x >= 0 ==> 2 * h <= x <= 2 * h + 1
    ensures x < 0 ==> 2 * h - 1 <= x <= 2 * h
  {
    if x >= 0 then x / 2 else -((-x) / 2)
  }

  /** The midway points between neighbouring alignment points. */
  function Midpoints(align: seq<int>): (cuts: seq<int>)
    requires align != []
    ensures |cuts| == |align| - 1
    ensures forall i :: 0 <= i < |cuts| ==> cuts[i] == Half(align[i] + align[i + 1])
  {
    seq(|align| - 1, i requires 0 <= i < |align| - 1 => Half(align[i] + align[i + 1]))
  }

  /** np.searchsorted (left side): binary search for the number of elements below x. */
  function SearchSorted(xs: seq<int>, x: int, lo: nat, hi: nat): (r: nat)
    requires lo <= hi <= |xs|
    ensures lo <= r <= hi
    ensures NonDescending(xs) ==> (forall i :: lo <= i < r ==> xs[i] < x) && (forall i :: r <= i < hi ==> xs[i] >= x)
    decreases hi - lo
  {
    if lo == hi then lo else
      var mid := (lo + hi) / 2;
      if xs[mid] < x then SearchSorted(xs, x, mid + 1, hi) else SearchSorted(xs, x, lo, mid)
  }

  lemma MidpointsNonDescending(align: seq<int>)
    requires align != [] && Ascending(align)
    ensures NonDescending(Midpoints(align))
  {
    forall i, j | 0 <= i <= j < |align| - 1 ensures Midpoints(align)[i] <= Midpoints(align)[j] {
      MidpointOrder(align, i, j);
    }
  }

  lemma MidpointOrder(align: seq<int>, i: nat, j: nat)
    requires Ascending(align) && i <= j < |align| - 1
    ensures Midpoints(align)[i] <= Midpoints(align)[j]
  {
    var a, b, c, d := align[i], align[i + 1], align[j], align[j + 1];
    assert a <= c && b <= d;
    HalfMonotone(a + b, c + d);
  }

  lemma HalfMonotone(x: int, y: int)
    requires x <= y
    ensures Half(x) <= Half(y)
  {
  }

  // ----- Timeseries.segment -----

  function SegmentOf(align: seq<int>, t: int): (s: nat)
    requires align != []
    ensures s < |align|
  {
    SearchSorted(Midpoints(align), t, 0, |align| - 1)
  }

  predicate NoLaterSample(a: Sample, b: Sample) { a.time <= b.time }

  /** Every sample relative to the alignment point of its segment. */
  function Shifted(rows: Series, align: seq<int>): (shifted: Series)
    requires align != []
    ensures |shifted| == |rows|
    ensures forall i :: 0 <= i < |rows| ==>
      shifted[i].value == rows[i].value && shifted[i].time + align[SegmentOf(align, rows[i].time)] == rows[i].time
  {
    seq(|rows|, i requires 0 <= i < |rows| =>
      Sample(rows[i].time - align[SegmentOf(align, rows[i].time)], rows[i].value))
  }

  /** NoAlignment: the lookup of a segment without alignment points. DuplicateTimestamps: the result is not a valid
      series. */
  datatype SegmentResult = NoAlignment | DuplicateTimestamps | Segmented(series: Series)

  predicate DistinctTimes(s: Series) { forall i, j :: 0 <= i < j < |s| ==> s[i].time != s[j].time }

  function Segment(rows: Series, align: seq<int>): SegmentResult
  {
    if rows == [] then Segmented([])
    else if align == [] then NoAlignment
    else
      var sorted := Sort(Shifted(rows, align), NoLaterSample);
      if DistinctTimes(sorted) then Segmented(sorted) else DuplicateTimestamps
  }

  /** i is a nearest alignment point to t. */
  ghost predicate Nearest(align: seq<int>, t: int, i: nat)
  {
    i < |align| && forall j :: 0 <= j < |align| ==> Abs(t - align[i]) <= Abs(t - align[j])
  }

  ghost predicate Tie(align: seq<int>, t: int)
  {
    exists i, j :: 0 <= i < j < |align| && Nearest(align, t, i) && Nearest(align, t, j)
  }

  /** Around a cut whose neighbours add up to a non-negative or even number, rounding does no harm. */
  predicate RoundsWell(a: int, b: int) { a + b >= 0 || (a + b) % 2 == 0 }

  ghost predicate AllRoundWell(align: seq<int>)
  {
    forall i :: 0 < i < |align| ==> RoundsWell(align[i - 1], align[i])
  }

  lemma LowerPointsAreFarther(low: int, below: int, at: int, t: int)
    requires low <= below < at && RoundsWell(below, at) && Half(below + at) < t
    ensures Abs(t - at) < Abs(t - low)
  {
    assert 2 * t > below + at;
  }

  lemma UpperPointsAreNotNearer(at: int, above: int, high: int, t: int)
    requires at < above <= high && RoundsWell(at, above) && t <= Half(at + above)
    ensures Abs(t - at) <= Abs(t - high)
  {
    assert 2 * t <= at + above;
  }

  /** t lies between the midpoints around alignment point s. */
  ghost predicate InSegment(align: seq<int>, t: int, s: nat)
  {
    && s < |align|
    && (s > 0 ==> Half(align[s - 1] + align[s]) < t)
    && (s < |align| - 1 ==> t <= Half(align[s] + align[s + 1]))
  }

  lemma SegmentBounds(align: seq<int>, t: int)
    requires align != [] && Ascending(align)
    ensures InSegment(align, t, SegmentOf(align, t))
  {
    MidpointsNonDescending(align);
    var s := SegmentOf(align, t);
    if s > 0 { assert Midpoints(align)[s - 1] < t; }
    if s < |align| - 1 { assert Midpoints(align)[s] >= t; }
  }

  lemma SegmentVersus(align: seq<int>, t: int, s: nat, j: nat)
    requires Ascending(align) && AllRoundWell(align) && InSegment(align, t, s) && j < |align|
    ensures Abs(t - align[s]) <= Abs(t - align[j])
    ensures j < s ==> Abs(t - align[s]) < Abs(t - align[j])
  {
    if j < s {
      var below := align[s - 1];
      assert RoundsWell(below, align[s]);
      LowerPointsAreFarther(align[j], below, align[s], t);
    } else if j > s {
      var next := s + 1;
      assert RoundsWell(align[next - 1], align[next]);
      UpperPointsAreNotNearer(align[s], align[next], align[j], t);
    }
  }

  /** Every sample goes to a nearest alignment point, the lower one on ties. */
  lemma SegmentIsNearest(align: seq<int>, t: int)
    requires align != [] && Ascending(align) && AllRoundWell(align)
    ensures Nearest(align, t, SegmentOf(align, t))
    ensures forall j :: 0 <= j < |align| && Nearest(align, t, j) ==> SegmentOf(align, t) <= j
  {
    SegmentBounds(align, t);
    var s := SegmentOf(align, t);
    forall j | 0 <= j < |align|
      ensures Abs(t - align[s]) <= Abs(t - align[j])
      ensures j < s ==> Abs(t - align[s]) < Abs(t - align[j])
    {
      SegmentVersus(align, t, s, j);
    }
  }

  /** For non-negative alignment points the assignment is always nearest. */
  lemma NonNegativePointsRoundWell(align: seq<int>)
    requires forall i :: 0 <= i < |align| ==> align[i] >= 0
    ensures AllRoundWell(align)
  {
  }

  lemma RoundedPastTheMiddle(low: int, a: int, b: int, t: int)
    requires low <= a < b && !RoundsWell(a, b) && t == Half(a + b)
    ensures Abs(t - b) < Abs(t - low)
  {
    assert 2 * t == a + b + 1;
  }

  lemma LaterMidpoint(align: seq<int>, i: nat, s: nat)
    requires Ascending(align) && 0 < i <= s < |align|
    ensures Half(align[i - 1] + align[i]) <= Half(align[s - 1] + align[s])
  {
    var a, b, c, d := align[i - 1], align[i], align[s - 1], align[s];
    assert a <= c && b <= d;
    HalfMonotone(a + b, c + d);
  }

  lemma MidpointSegment(align: seq<int>, i: nat, t: int, s: nat)
    requires Ascending(align) && 0 < i < |align| && t == Half(align[i - 1] + align[i]) && InSegment(align, t, s)
    ensures s < i
  {
    if i <= s {
      LaterMidpoint(align, i, s);
    }
  }

  lemma MidpointIsMisplaced(align: seq<int>, i: nat, t: int, s: nat)
    requires Ascending(align) && s < i < |align| && !RoundsWell(align[i - 1], align[i])
    requires t == Half(align[i - 1] + align[i])
    ensures !Nearest(align, t, s)
  {
    var low, a, b := align[s], align[i - 1], align[i];
    RoundedPastTheMiddle(low, a, b, t);
  }

  /** In general the midpoint assignment is nearest for every time exactly when no two neighbouring points add up to a
      negative odd number. */
  lemma SegmentIsNearestIff(align: seq<int>)
    requires align != [] && Ascending(align)
    ensures (forall t :: Nearest(align, t, SegmentOf(align, t))) <==> AllRoundWell(align)
  {
    if AllRoundWell(align) {
      forall t ensures Nearest(align, t, SegmentOf(align, t)) { SegmentIsNearest(align, t); }
    } else {
      var i :| 0 < i < |align| && !RoundsWell(align[i - 1], align[i]);
      var t := Half(align[i - 1] + align[i]);
      SegmentBounds(align, t);
      MidpointSegment(align, i, t, SegmentOf(align, t));
      MidpointIsMisplaced(align, i, t, SegmentOf(align, t));
    }
  }

  lemma {:induction false} TwicePresent(s: Series, x: Sample)
    requires multiset(s)[x] >= 2
    ensures exists a, b :: 0 <= a < b < |s| && s[a] == x && s[b] == x
  {
    var first :| 0 <= first < |s| && s[first] == x;
    assert s == s[..first] + [x] + s[first + 1..];
    if x in s[..first] {
      var a :| 0 <= a < first && s[a] == x;
    } else {
      assert x in multiset(s[first + 1..]);
      var b :| 0 <= b < |s[first + 1..]| && s[first + 1..][b] == x;
      assert s[first + 1 + b] == x;
    }
  }

  /** Rearranging samples keeps repeated times. */
  lemma RepeatedTimes(s: Series, t: Series)
    requires multiset(s) == multiset(t) && !DistinctTimes(t)
    ensures !DistinctTimes(s)
  {
    var i, j :| 0 <= i < j < |t| && t[i].time == t[j].time;
    if t[i] == t[j] {
      assert t == t[..i] + [t[i]] + t[i + 1..j] + [t[j]] + t[j + 1..];
      TwicePresent(s, t[i]);
    } else {
      assert t[i] in multiset(s) && t[j] in multiset(s);
      var a :| 0 <= a < |s| && s[a] == t[i];
      var b :| 0 <= b < |s| && s[b] == t[j];
    }
  }

  /** Segmenting succeeds exactly when the shifted times stay distinct; the result holds the shifted samples in time
      order, so adding each sample's alignment point back restores the original times. */
  lemma SegmentKeepsSamples(rows: Series, align: seq<int>)
    requires align != []
    ensures Segment(rows, align).Segmented? <==> DistinctTimes(Shifted(rows, align))
    ensures Segment(rows, align).Segmented? ==>
      && multiset(Segment(rows, align).series) == multiset(Shifted(rows, align))
      && Increasing(Segment(rows, align).series)
  {
    if rows != [] {
      var shifted := Shifted(rows, align);
      var sorted := Sort(shifted, NoLaterSample);
      SortKeepsElements(shifted, NoLaterSample);
      SortIsSorted(shifted, NoLaterSample);
      if !DistinctTimes(sorted) { RepeatedTimes(shifted, sorted); }
      if !DistinctTimes(shifted) { RepeatedTimes(sorted, shifted); }
      assert forall i, j :: 0 <= i < j < |sorted| ==> NoLaterSample(sorted[i], sorted[j]);
    }
  }

  function FindSample(s: Series, x: Sample): (i: nat)
    requires x in s
    ensures i < |s| && s[i] == x
  {
    if s[0] == x then 0 else
      assert s == [s[0]] + s[1..];
      FindSample(s[1..], x) + 1
  }

  /** The sample is the row, taken relative to the lowest of the row's nearest alignment points. */
  ghost predicate Restores(align: seq<int>, row: Sample, sample: Sample)
  {
    exists n :: 0 <= n < |align| && Nearest(align, row.time, n)
      && (forall j :: 0 <= j < n ==> !Nearest(align, row.time, j))
      && sample.time + align[n] == row.time && sample.value == row.value
  }

  /** Every sample of the segmented series comes from a row of its own: its time plus a nearest alignment point is the
      original time and its value is the original value, and no row is lost or used twice. */
  lemma SegmentRestoresRows(rows: Series, align: seq<int>) returns (source: seq<nat>)
    requires align != [] && Ascending(align) && AllRoundWell(align) && Segment(rows, align).Segmented?
    ensures var segmented := Segment(rows, align).series;
      && |source| == |segmented| == |rows|
      && (forall j :: 0 <= j < |rows| ==> source[j] < |rows| && Restores(align, rows[source[j]], segmented[j]))
      && (forall j, k :: 0 <= j < k < |rows| ==> source[j] != source[k])
  {
    var shifted, segmented := Shifted(rows, align), Segment(rows, align).series;
    SegmentKeepsSamples(rows, align);
    source := Sources(shifted, segmented);
    forall j | 0 <= j < |rows| ensures Restores(align, rows[source[j]], segmented[j]) {
      RowIsRestored(rows, align, source[j]);
    }
  }

  /** Where each element of a strictly increasing arrangement comes from. */
  lemma Sources(s: Series, arranged: Series) returns (source: seq<nat>)
    requires multiset(s) == multiset(arranged) && Increasing(arranged)
    ensures |source| == |arranged| == |s|
    ensures forall j :: 0 <= j < |s| ==> source[j] < |s| && s[source[j]] == arranged[j]
    ensures forall j, k :: 0 <= j < k < |s| ==> source[j] != source[k]
  {
    assert |arranged| == |multiset(arranged)| == |multiset(s)| == |s|;
    forall j | 0 <= j < |arranged| ensures arranged[j] in s {
      assert arranged[j] in multiset(s);
    }
    source := seq(|arranged|, j requires 0 <= j < |arranged| => FindSample(s, arranged[j]));
    forall j, k | 0 <= j < k < |s| ensures source[j] != source[k] {
      assert s[source[j]].time < s[source[k]].time;
    }
  }

  lemma RowIsRestored(rows: Series, align: seq<int>, i: nat)
    requires align != [] && Ascending(align) && AllRoundWell(align) && i < |rows|
    ensures Restores(align, rows[i], Shifted(rows, align)[i])
  {
    SegmentIsNearest(align, rows[i].time);
  }

  /** For distinct non-negative alignment points in order this needs no further condition. */
  lemma NonNegativePointsRestoreRows(rows: Series, align: seq<int>) returns (source: seq<nat>)
    requires align != [] && Ascending(align) && align[0] >= 0 && DistinctTimes(Shifted(rows, align))
    ensures Segment(rows, align).Segmented? && |source| == |Segment(rows, align).series| == |rows|
    ensures forall j :: 0 <= j < |rows| ==>
      source[j] < |rows| && Restores(align, rows[source[j]], Segment(rows, align).series[j])
    ensures forall j, k :: 0 <= j < k < |rows| ==> source[j] != source[k]
  {
    NonNegativePointsRoundWell(align);
    SegmentKeepsSamples(rows, align);
    source := SegmentRestoresRows(rows, align);
  }

  // ----- QueryPostProcessor.segment_and_align -----

  /** reindex(method = 'nearest') on an increasing index: of the neighbours below and above, the lower one wins only
      when strictly nearer. */
  function NearestIndex(cuts: seq<int>, t: int): (i: nat)
    requires cuts != []
    ensures i < |cuts|
  {
    var right := SearchSorted(cuts, t, 0, |cuts|);
    var left := SearchSorted(cuts, t + 1, 0, |cuts|);
    if right == |cuts| then |cuts| - 1
    else if left == 0 then right
    else if t - cuts[left - 1] < cuts[right] - t then left - 1 else right
  }

  lemma NearestIndexIsNearest(cuts: seq<int>, t: int)
    requires cuts != [] && Ascending(cuts)
    ensures Nearest(cuts, t, NearestIndex(cuts, t))
    ensures forall j :: 0 <= j < |cuts| && Nearest(cuts, t, j) ==> j <= NearestIndex(cuts, t)
  {
    var n := NearestIndex(cuts, t);
    forall j | 0 <= j < |cuts|
      ensures Abs(t - cuts[n]) <= Abs(t - cuts[j])
      ensures j > n ==> Abs(t - cuts[n]) < Abs(t - cuts[j])
    {
    }
  }

  /** The two assignments agree on every time that is not exactly halfway between two points, and only there. */
  lemma AssignmentsAgreeExceptOnTies(align: seq<int>, t: int)
    requires align != [] && Ascending(align) && AllRoundWell(align)
    ensures SegmentOf(align, t) == NearestIndex(align, t) <==> !Tie(align, t)
  {
    SegmentIsNearest(align, t);
    NearestIndexIsNearest(align, t);
  }

  /** Modular wrapping into half an interval on either side of zero; modulo zero is zero in NumPy. */
  function Wrap(x: int, interval: nat): int
  {
    var half := interval / 2;
    (if interval == 0 then 0 else (x + half) % interval) - half
  }

  /** The wrapped value is the one representative of x modulo the interval within half an interval of zero. */
  lemma WrapIsTheCentredRepresentative(x: int, interval: nat, r: int)
    requires interval > 0
    ensures r == Wrap(x, interval) <==> -(interval / 2) <= r < interval - interval / 2 && (x - r) % interval == 0
  {
    var half := interval / 2;
    var q := (x + half) / interval;
    assert x + half == q * interval + (x + half) % interval;
    if r == Wrap(x, interval) {
      assert x - r == q * interval;
      MultipleModulo(q, interval);
    }
    if -half <= r < interval - half && (x - r) % interval == 0 {
      var p := (x - r) / interval;
      assert x + half == p * interval + (r + half);
      QuotientIsUnique(p, q, r + half, (x + half) % interval, interval);
    }
  }

  lemma MultipleModulo(q: int, d: nat)
    requires d > 0
    ensures (q * d) % d == 0
  {
    QuotientIsUnique(q, (q * d) / d, 0, (q * d) % d, d);
  }

  lemma {:induction false} MultipleGrows(k: nat, d: nat)
    requires k >= 1
    ensures k * d >= d
  {
    if k > 1 {
      MultipleGrows(k - 1, d);
      assert k * d == (k - 1) * d + d;
    }
  }

  lemma QuotientIsUnique(p: int, q: int, a: int, b: int, d: nat)
    requires d > 0 && 0 <= a < d && 0 <= b < d && p * d + a == q * d + b
    ensures p == q && a == b
  {
    assert (p - q) * d == b - a && (q - p) * d == a - b;
    if p > q {
      MultipleGrows(p - q, d);
    } else if q > p {
      MultipleGrows(q - p, d);
    }
  }

  function InsertDistinct(x: int, xs: seq<int>): seq<int>
  {
    if xs == [] || x < xs[0] then [x] + xs
    else if x == xs[0] then xs
    else [xs[0]] + InsertDistinct(x, xs[1..])
  }

  /** The time level of the data's index: the distinct times in ascending order. */
  function Level(times: seq<int>): seq<int>
  {
    if times == [] then [] else InsertDistinct(times[0], Level(times[1..]))
  }

  lemma PrependAscending(x: int, xs: seq<int>)
    requires Ascending(xs) && forall y :: y in xs ==> x < y
    ensures Ascending([x] + xs)
  {
    assert forall i :: 0 <= i < |xs| ==> xs[i] in xs;
  }

  lemma {:induction false} InsertDistinctMembers(x: int, xs: seq<int>)
    ensures forall y :: y in InsertDistinct(x, xs) <==> y == x || y in xs
  {
    if xs != [] {
      InsertDistinctMembers(x, xs[1..]);
      assert xs == [xs[0]] + xs[1..];
    }
  }

  lemma {:induction false} InsertDistinctAscending(x: int, xs: seq<int>)
    requires Ascending(xs)
    ensures Ascending(InsertDistinct(x, xs))
  {
    if xs != [] && x > xs[0] {
      InsertDistinctAscending(x, xs[1..]);
      InsertDistinctMembers(x, xs[1..]);
      PrependAscending(xs[0], InsertDistinct(x, xs[1..]));
    }
  }

  lemma {:induction false} LevelAscending(times: seq<int>)
    ensures Ascending(Level(times))
    ensures forall y :: y in Level(times) <==> y in times
  {
    if times != [] {
      LevelAscending(times[1..]);
      InsertDistinctAscending(times[0], Level(times[1..]));
      InsertDistinctMembers(times[0], Level(times[1..]));
      assert times == [times[0]] + times[1..];
    }
  }

  lemma {:induction false} LevelOfAscending(times: seq<int>)
    requires Ascending(times)
    ensures Level(times) == times
  {
    if times != [] {
      LevelOfAscending(times[1..]);
      assert times == [times[0]] + times[1..];
    }
  }

  /** The distinct times in the order of their first occurrence. */
  function FirstOccurrences(times: seq<int>): (level: seq<int>)
    ensures |level| <= |times|
  {
    if times == [] then [] else
      var before, last := times[..|times| - 1], times[|times| - 1];
      FirstOccurrences(before) + if last in before then [] else [last]
  }

  function Concatenated(indexes: seq<seq<int>>): seq<int>
  {
    if indexes == [] then [] else indexes[0] + Concatenated(indexes[1..])
  }

  predicate AllSame(indexes: seq<seq<int>>)
  {
    forall i :: 0 <= i < |indexes| ==> indexes[i] == indexes[0]
  }

  /** The time level after concatenating one series per endpoint: sorted, unless all series have the same index, as a
      single one has; then pandas takes the distinct times as they come. */
  function IndexLevel(indexes: seq<seq<int>>): seq<int>
  {
    if indexes != [] && AllSame(indexes) then FirstOccurrences(indexes[0]) else Level(Concatenated(indexes))
  }

  lemma {:induction false} FirstOccurrencesOfDistinct(times: seq<int>)
    ensures |FirstOccurrences(times)| == |times| ==> FirstOccurrences(times) == times
    ensures |FirstOccurrences(times)| == |times| <==> forall i, j :: 0 <= i < j < |times| ==> times[i] != times[j]
  {
    if times != [] {
      var before, last := times[..|times| - 1], times[|times| - 1];
      FirstOccurrencesOfDistinct(before);
      assert times == before + [last];
      if last in before {
        var i :| 0 <= i < |before| && before[i] == last;
        assert times[i] == times[|times| - 1];
      }
    }
  }

  lemma LevelKeepsTimesIff(times: seq<int>)
    ensures Level(times) == times <==> Ascending(times)
  {
    LevelAscending(times);
    if Ascending(times) { LevelOfAscending(times); }
  }

  lemma SameIndexes(indexes: seq<seq<int>>)
    requires indexes != [] && AllSame(indexes) && |IndexLevel(indexes)| == |Concatenated(indexes)|
    ensures IndexLevel(indexes) == Concatenated(indexes)
  {
    FirstOccurrencesOfDistinct(indexes[0]);
    if |indexes| > 1 {
      assert Concatenated(indexes) == indexes[0] + (indexes[1] + Concatenated(indexes[2..])) by {
        assert indexes[1..][1..] == indexes[2..];
      }
      assert indexes[1] == indexes[0];
    } else {
      assert Concatenated(indexes) == indexes[0] + [];
    }
  }

  /** When the level is as long as the rows, it holds the rows' own times exactly when the indexes are all the same or
      the times ascend. */
  lemma LevelIsTimesIff(indexes: seq<seq<int>>)
    requires |IndexLevel(indexes)| == |Concatenated(indexes)|
    ensures IndexLevel(indexes) == Concatenated(indexes) <==> AllSame(indexes) || Ascending(Concatenated(indexes))
  {
    if indexes != [] && AllSame(indexes) {
      SameIndexes(indexes);
    } else {
      LevelKeepsTimesIff(Concatenated(indexes));
    }
  }

  /** A label of the cut series: a time, or a number as in the default labels. */
  datatype Label = Stamp(time: int) | Number(n: int)

  /** The series of cuts: values and, position by position, their labels. An index of times stands for a series that is
      labelled with its own values. */
  datatype CutSeries = CutSeries(labels: seq<Label>, values: seq<int>)
  {
    predicate Valid() { |labels| == |values| }

    predicate OwnLabels() { Valid() && forall i :: 0 <= i < |values| ==> labels[i] == Stamp(values[i]) }

    predicate UniqueLabels() { forall i, j :: 0 <= i < j < |labels| ==> labels[i] != labels[j] }
  }

  /** The value stored under the label that is equal to the time; NaT when there is none. */
  function Lookup(cuts: CutSeries, t: int): (v: Option<int>)
    requires cuts.Valid()
    decreases |cuts.values|
  {
    if cuts.values == [] then None
    else if cuts.labels[0] == Stamp(t) then Some(cuts.values[0])
    else Lookup(CutSeries(cuts.labels[1..], cuts.values[1..]), t)
  }

  /** A row's cut index and its time relative to the closest cut; time is None for NaT. */
  datatype AlignedRow = AlignedRow(cutIndex: nat, time: Option<int>)

  /** NoCuts: without cuts pandas finds no nearest value. NotMonotonic: the assertion. DuplicateCut: reindexing refuses
      repeated cuts and labels. LengthMismatch: the subtraction of unequally long columns. */
  datatype AlignResult = NotMonotonic | NoCuts | DuplicateCut | LengthMismatch | Aligned(rows: seq<AlignedRow>)

  /** The cuts are relabelled with their own values, which looks each of them up under its value, and the nearest value
      is taken from there. */
  function ClosestCut(cuts: CutSeries, t: int): Option<int>
    requires cuts.Valid() && cuts.values != []
  {
    Lookup(cuts, cuts.values[NearestIndex(cuts.values, t)])
  }

  /** NaT as a number, and sorted behind all times. */
  const NAT := -0x8000_0000_0000_0000

  function Wrapped(relative: Option<int>, wrap: Option<nat>): Option<int>
  {
    match wrap
    case None => relative
    case Some(interval) => Some(Wrap(if relative.Some? then relative.value else NAT, interval))
  }

  function Relative(time: int, cut: Option<int>): Option<int> { if cut.Some? then Some(time - cut.value) else None }

  function CutIndex(values: seq<int>, cut: Option<int>): (i: nat)
    ensures i <= |values|
  {
    if cut.Some? then SearchSorted(values, cut.value, 0, |values|) else |values|
  }

  /** The new timestamps are taken from the index level, position by position, not from the rows' own times. */
  function AlignTimes(times: seq<int>, level: seq<int>, cuts: CutSeries, wrap: Option<nat>): (r: AlignResult)
    requires cuts.Valid()
    ensures r.Aligned? ==> |r.rows| == |times| == |level|
  {
    var values := cuts.values;
    if !(forall i :: 0 < i < |values| ==> values[i - 1] <= values[i]) then NotMonotonic
    else if values == [] then NoCuts
    else if !cuts.UniqueLabels() || (exists i :: 0 < i < |values| && values[i - 1] == values[i]) then DuplicateCut
    else if |level| != |times| then LengthMismatch
    else Aligned(seq(|times|, i requires 0 <= i < |times| =>
      var cut := ClosestCut(cuts, times[i]);
      AlignedRow(CutIndex(values, cut), Wrapped(Relative(level[i], cut), wrap))))
  }

  /** The rows of the endpoints, one index each. */
  function SegmentAndAlign(indexes: seq<seq<int>>, cuts: CutSeries, wrap: Option<nat>): AlignResult
    requires cuts.Valid()
  {
    AlignTimes(Concatenated(indexes), IndexLevel(indexes), cuts, wrap)
  }

  // ----- Looking up the cuts by their labels -----

  /** The lookup finds a value exactly when some label is the time, and then the value of the first such label. */
  lemma {:induction false} LookupFinds(cuts: CutSeries, t: int)
    requires cuts.Valid()
    ensures Lookup(cuts, t).None? <==> Stamp(t) !in cuts.labels
    ensures Lookup(cuts, t).Some? ==>
      exists i :: 0 <= i < |cuts.labels| && cuts.labels[i] == Stamp(t) && Lookup(cuts, t).value == cuts.values[i]
    decreases |cuts.values|
  {
    if cuts.values != [] && cuts.labels[0] != Stamp(t) {
      var rest := CutSeries(cuts.labels[1..], cuts.values[1..]);
      LookupFinds(rest, t);
      assert cuts.labels == [cuts.labels[0]] + rest.labels;
      if Lookup(rest, t).Some? {
        var i :| 0 <= i < |rest.labels| && rest.labels[i] == Stamp(t) && Lookup(rest, t).value == rest.values[i];
        assert cuts.labels[i + 1] == Stamp(t) && Lookup(cuts, t).value == cuts.values[i + 1];
      }
    }
  }

  /** Every cut is found under its own value exactly when every label is the value beside it. */
  lemma OwnLabelsIff(cuts: CutSeries)
    requires cuts.Valid() && Ascending(cuts.values)
    ensures (forall i :: 0 <= i < |cuts.values| ==> Lookup(cuts, cuts.values[i]) == Some(cuts.values[i])) <==>
      cuts.OwnLabels()
  {
    forall i | 0 <= i < |cuts.values|
      ensures Lookup(cuts, cuts.values[i]) == Some(cuts.values[i]) ==> cuts.labels[i] == Stamp(cuts.values[i])
      ensures cuts.OwnLabels() ==> Lookup(cuts, cuts.values[i]) == Some(cuts.values[i])
    {
      LookupFinds(cuts, cuts.values[i]);
      if cuts.OwnLabels() { assert cuts.labels[i] in cuts.labels; }
    }
  }

  lemma CutIsItsOwnNearest(values: seq<int>, i: nat)
    requires Ascending(values) && i < |values|
    ensures NearestIndex(values, values[i]) == i
  {
    NearestIndexIsNearest(values, values[i]);
    assert Abs(values[i] - values[i]) == 0;
  }

  /** The closest cut is the nearest one for every time exactly when the cuts carry their own values as labels. */
  lemma ClosestIsNearestIff(cuts: CutSeries)
    requires cuts.Valid() && Ascending(cuts.values) && cuts.values != []
    ensures (forall t :: ClosestCut(cuts, t) == Some(cuts.values[NearestIndex(cuts.values, t)])) <==> cuts.OwnLabels()
  {
    OwnLabelsIff(cuts);
    if forall t :: ClosestCut(cuts, t) == Some(cuts.values[NearestIndex(cuts.values, t)]) {
      forall i | 0 <= i < |cuts.values| ensures Lookup(cuts, cuts.values[i]) == Some(cuts.values[i]) {
        CutIsItsOwnNearest(cuts.values, i);
        assert ClosestCut(cuts, cuts.values[i]) == Some(cuts.values[NearestIndex(cuts.values, cuts.values[i])]);
      }
    }
  }

  /** Labels that are numbers, as a series has them by default, lose everything: no cut is found for any row, and every
      new time is NaT, or with wrapping the same number, whatever the row. */
  lemma DefaultLabelsLoseTheTimes(times: seq<int>, level: seq<int>, cuts: CutSeries, wrap: Option<nat>, i: nat)
    requires cuts.Valid() && forall j :: 0 <= j < |cuts.labels| ==> cuts.labels[j] == Number(j)
    requires AlignTimes(times, level, cuts, wrap).Aligned? && i < |times|
    ensures AlignTimes(times, level, cuts, wrap).rows[i]
         == AlignedRow(|cuts.values|, if wrap.Some? then Some(Wrap(NAT, wrap.value)) else None)
  {
    LookupFinds(cuts, cuts.values[NearestIndex(cuts.values, times[i])]);
  }

  lemma {:induction false} NeighboursAscending(cuts: seq<int>)
    requires forall i :: 0 < i < |cuts| ==> cuts[i - 1] < cuts[i]
    ensures Ascending(cuts)
  {
    if |cuts| > 1 {
      var front := cuts[..|cuts| - 1];
      NeighboursAscending(front);
      assert cuts[|cuts| - 2] < cuts[|cuts| - 1];
      assert forall i :: 0 <= i < |front| ==> front[i] <= front[|front| - 1];
    }
  }

  /** The row's cut index is that of the nearest cut when the cut is found under its own value. */
  lemma CutIndexIsNearest(times: seq<int>, level: seq<int>, cuts: CutSeries, wrap: Option<nat>, i: nat)
    requires cuts.Valid() && AlignTimes(times, level, cuts, wrap).Aligned? && i < |times|
    ensures Ascending(cuts.values) && cuts.values != []
    ensures var n := NearestIndex(cuts.values, times[i]);
      AlignTimes(times, level, cuts, wrap).rows[i].cutIndex == n <==> ClosestCut(cuts, times[i]) == Some(cuts.values[n])
  {
    NeighboursAscending(cuts.values);
    var n, cut := NearestIndex(cuts.values, times[i]), ClosestCut(cuts, times[i]);
    SearchFinds(cuts.values, n);
    if cut.Some? {
      ClosestIsACut(cuts, times[i]);
      var m :| 0 <= m < |cuts.values| && cuts.values[m] == cut.value;
      SearchFinds(cuts.values, m);
    }
  }

  lemma ClosestIsACut(cuts: CutSeries, t: int)
    requires cuts.Valid() && cuts.values != []
    ensures ClosestCut(cuts, t).Some? ==> ClosestCut(cuts, t).value in cuts.values
  {
    LookupFinds(cuts, cuts.values[NearestIndex(cuts.values, t)]);
  }

  lemma SearchFinds(cuts: seq<int>, n: nat)
    requires Ascending(cuts) && n < |cuts|
    ensures SearchSorted(cuts, cuts[n], 0, |cuts|) == n
  {
    var r := SearchSorted(cuts, cuts[n], 0, |cuts|);
    assert NonDescending(cuts);
    var lower := cuts[Min(r, n)];
    assert lower >= cuts[n];
  }

  /** time, new time and cut fit together: exactly, or up to a multiple of the interval and centred around zero. */
  ghost predicate FitsTogether(cut: int, relative: int, time: int, wrap: Option<nat>)
    requires wrap.Some? ==> wrap.value > 0
  {
    match wrap
    case None => cut + relative == time
    case Some(w) => (time - cut - relative) % w == 0 && -(w / 2) <= relative < w - w / 2
  }

  lemma WrappedRestores(cut: int, time: int, wrap: Option<nat>)
    requires wrap.Some? ==> wrap.value > 0
    ensures Wrapped(Some(time - cut), wrap).Some?
      && FitsTogether(cut, Wrapped(Some(time - cut), wrap).value, time, wrap)
  {
    if wrap.Some? {
      WrapIsTheCentredRepresentative(time - cut, wrap.value, Wrap(time - cut, wrap.value));
    }
  }

  /** Rows that are in ascending order, or that come from a single endpoint with distinct times, keep their times in the
      level. */
  ghost predicate KeepsTimes(indexes: seq<seq<int>>)
  {
    || Ascending(Concatenated(indexes))
    || (|indexes| == 1 && forall i, j :: 0 <= i < j < |indexes[0]| ==> indexes[0][i] != indexes[0][j])
  }

  lemma LevelKeepsTimes(indexes: seq<seq<int>>)
    requires KeepsTimes(indexes)
    ensures IndexLevel(indexes) == Concatenated(indexes)
  {
    if |indexes| == 1 {
      var times := indexes[0];
      FirstOccurrencesOfDistinct(times);
      assert Concatenated(indexes) == times + [] == times;
      assert Ascending(times) ==> forall i, j :: 0 <= i < j < |times| ==> times[i] != times[j];
    } else if indexes != [] && AllSame(indexes) {
      assert indexes[1..][1..] == indexes[2..] && indexes[1] == indexes[0];
      assert Concatenated(indexes) == indexes[0] + (indexes[1] + Concatenated(indexes[2..]));
      RepeatedTimesDescend(indexes[0], Concatenated(indexes[2..]));
      EmptyIndexes(indexes);
    } else {
      LevelOfAscending(Concatenated(indexes));
    }
  }

  lemma RepeatedTimesDescend(times: seq<int>, rest: seq<int>)
    ensures times != [] ==> !Ascending(times + (times + rest))
  {
    var all := times + (times + rest);
    assert times != [] ==> all[0] == all[|times|];
  }

  lemma {:induction false} EmptyIndexes(indexes: seq<seq<int>>)
    requires forall i :: 0 <= i < |indexes| ==> indexes[i] == []
    ensures Concatenated(indexes) == []
  {
    if indexes != [] { EmptyIndexes(indexes[1..]); }
  }

  lemma OwnLabelsAreUnique(cuts: CutSeries)
    requires cuts.OwnLabels() && Ascending(cuts.values)
    ensures cuts.UniqueLabels()
  {
  }

  lemma OwnLabelsAlign(times: seq<int>, cuts: CutSeries, wrap: Option<nat>)
    requires cuts.OwnLabels() && Ascending(cuts.values) && cuts.values != []
    ensures AlignTimes(times, times, cuts, wrap).Aligned?
  {
    OwnLabelsAreUnique(cuts);
  }

  lemma OwnLabelsRow(times: seq<int>, cuts: CutSeries, wrap: Option<nat>, i: nat)
    requires cuts.OwnLabels() && Ascending(cuts.values) && cuts.values != [] && i < |times|
    requires AlignTimes(times, times, cuts, wrap).Aligned?
    ensures var n := NearestIndex(cuts.values, times[i]);
      AlignTimes(times, times, cuts, wrap).rows[i] == AlignedRow(n, Wrapped(Some(times[i] - cuts.values[n]), wrap))
  {
    ClosestIsNearestIff(cuts);
    assert ClosestCut(cuts, times[i]) == Some(cuts.values[NearestIndex(cuts.values, times[i])]);
    SearchFinds(cuts.values, NearestIndex(cuts.values, times[i]));
  }

  lemma AlignedRowFits(times: seq<int>, cuts: CutSeries, wrap: Option<nat>, i: nat)
    requires cuts.OwnLabels() && Ascending(cuts.values) && cuts.values != [] && i < |times|
    requires wrap.Some? ==> wrap.value > 0
    ensures var r := AlignTimes(times, times, cuts, wrap);
      && r.Aligned?
      && Nearest(cuts.values, times[i], r.rows[i].cutIndex) && r.rows[i].time.Some?
      && FitsTogether(cuts.values[r.rows[i].cutIndex], r.rows[i].time.value, times[i], wrap)
  {
    var n := NearestIndex(cuts.values, times[i]);
    OwnLabelsAlign(times, cuts, wrap);
    OwnLabelsRow(times, cuts, wrap, i);
    NearestIndexIsNearest(cuts.values, times[i]);
    WrappedRestores(cuts.values[n], times[i], wrap);
  }

  /** With cuts labelled by their own values, rows in ascending order, and the distinct rows of a single endpoint in any
      order, are always aligned, each to a nearest cut, and cut plus new time restores every original time; with
      wrapping, up to a multiple of the interval. */
  lemma AlignmentRestoresTimes(indexes: seq<seq<int>>, cuts: CutSeries, wrap: Option<nat>, i: nat)
    requires cuts.OwnLabels() && Ascending(cuts.values) && cuts.values != []
    requires KeepsTimes(indexes) && i < |Concatenated(indexes)|
    requires wrap.Some? ==> wrap.value > 0
    ensures var times, r := Concatenated(indexes), SegmentAndAlign(indexes, cuts, wrap);
      && r.Aligned?
      && Nearest(cuts.values, times[i], r.rows[i].cutIndex) && r.rows[i].time.Some?
      && FitsTogether(cuts.values[r.rows[i].cutIndex], r.rows[i].time.value, times[i], wrap)
  {
    LevelKeepsTimes(indexes);
    AlignedRowFits(Concatenated(indexes), cuts, wrap, i);
  }

  /** Cut plus new time is the time. */
  predicate IsRestored(row: AlignedRow, values: seq<int>, time: int)
  {
    row.cutIndex < |values| && row.time.Some? && values[row.cutIndex] + row.time.value == time
  }

  lemma RowShowsTheLevel(times: seq<int>, level: seq<int>, cuts: CutSeries, i: nat)
    requires cuts.Valid() && AlignTimes(times, level, cuts, None).Aligned? && i < |times|
    ensures var row := AlignTimes(times, level, cuts, None).rows[i];
      if ClosestCut(cuts, times[i]).Some? then IsRestored(row, cuts.values, level[i]) else row.time.None?
  {
    NeighboursAscending(cuts.values);
    if ClosestCut(cuts, times[i]).Some? {
      ClosestIsACut(cuts, times[i]);
      var m :| 0 <= m < |cuts.values| && cuts.values[m] == ClosestCut(cuts, times[i]).value;
      SearchFinds(cuts.values, m);
    }
  }

  /** Without wrapping, aligned rows get their times back exactly when the nearest cut of every row has its value among
      the labels and the rows ascend or all endpoints have the same index: rows of several endpoints that interleave in
      time are shifted by each other's times. */
  lemma AlignmentRestoresTimesIff(indexes: seq<seq<int>>, cuts: CutSeries)
    requires cuts.Valid()
    ensures SegmentAndAlign(indexes, cuts, None).Aligned? ==>
      var rows, times := SegmentAndAlign(indexes, cuts, None).rows, Concatenated(indexes);
      (forall i :: 0 <= i < |times| ==> IsRestored(rows[i], cuts.values, times[i])) <==>
        && (AllSame(indexes) || Ascending(times))
        && (forall i :: 0 <= i < |times| ==> Stamp(cuts.values[NearestIndex(cuts.values, times[i])]) in cuts.labels)
  {
    if SegmentAndAlign(indexes, cuts, None).Aligned? {
      var rows, times, level := SegmentAndAlign(indexes, cuts, None).rows, Concatenated(indexes), IndexLevel(indexes);
      forall i | 0 <= i < |times|
        ensures IsRestored(rows[i], cuts.values, times[i]) <==>
          level[i] == times[i] && Stamp(cuts.values[NearestIndex(cuts.values, times[i])]) in cuts.labels
      {
        RowShowsTheLevel(times, level, cuts, i);
        LookupFinds(cuts, cuts.values[NearestIndex(cuts.values, times[i])]);
      }
      LevelIsTimesIff(indexes);
      assert level == times <==> forall i :: 0 <= i < |times| ==> level[i] == times[i];
    }
  }
}
