/** Merging several series end to end. */
module Stitching {
  import opened Sequences
  import opened ClockAnalysis

  /** A row of the merged frame; time is None where pandas holds NaT. */
  datatype Row<L> = Row(time: Option<int>, value: int, source: L)

  /** NothingToConcatenate: no frames at all. NotUnique: the assertion after the concatenation. NotMonotonic: the frame
      validation of the merged series. */
  datatype MergeResult<L> = NothingToConcatenate | NotUnique | NotMonotonic | Merged(rows: seq<Row<L>>)

  /** A frame copy with its source column; the index moved by `shift`, or left as it is, or lost to NaT. */
  datatype Shift = Keep | By(offset: int) | ToNaT

  function Moved(shift: Shift, time: int): Option<int>
  {
    match shift
    case Keep => Some(time)
    case By(offset) => Some(time + offset)
    case ToNaT => None
  }

  function Frame<L>(series: Series, source: L, shift: Shift): (rows: seq<Row<L>>)
    ensures |rows| == |series|
  {
    seq(|series|, i requires 0 <= i < |series| => Row(Moved(shift, series[i].time), series[i].value, source))
  }

  /** The shift that moves a series to start; NaT spreads from an empty index, which has no minimum. */
  function ShiftTo(series: Series, start: Option<int>): Shift
  {
    if series == [] || start.None? then ToNaT else By(start.value - series[0].time)
  }

  /** One second after the last moved time, or NaT. */
  function NextStart(series: Series, start: Option<int>): Option<int>
  {
    if series == [] || start.None? then None
    else Some(series[|series| - 1].time - series[0].time + start.value + SECOND)
  }

  function Stitched<L>(original: seq<Series>, labels: seq<L>, start: Option<int>): seq<Row<L>>
  {
    if original == [] || labels == [] then [] else
      Frame(original[0], labels[0], ShiftTo(original[0], start))
        + Stitched(original[1..], labels[1..], NextStart(original[0], start))
  }

  function Concatenated<L>(original: seq<Series>, labels: seq<L>): seq<Row<L>>
  {
    if original == [] || labels == [] then [] else
      Frame(original[0], labels[0], Keep) + Concatenated(original[1..], labels[1..])
  }

  predicate UniqueTimes<L>(rows: seq<Row<L>>)
  {
    forall i, j :: 0 <= i < j < |rows| ==> rows[i].time != rows[j].time
  }

  /** No negative difference; differences involving NaT do not count. */
  predicate MonotonicTimes<L>(rows: seq<Row<L>>)
  {
    forall i :: 0 < i < |rows| && rows[i - 1].time.Some? && rows[i].time.Some? ==>
      rows[i - 1].time.value <= rows[i].time.value
  }

  function Validated<L>(frames: nat, rows: seq<Row<L>>): MergeResult<L>
  {
    if frames == 0 then NothingToConcatenate
    else if !UniqueTimes(rows) then NotUnique
    else if !MonotonicTimes(rows) then NotMonotonic
    else Merged(rows)
  }

  lemma StitchedStep<L>(original: seq<Series>, labels: seq<L>, start: Option<int>, i: nat)
    requires i < |original| && i < |labels|
    ensures Stitched(original[i..], labels[i..], start)
         == Frame(original[i], labels[i], ShiftTo(original[i], start))
              + Stitched(original[i + 1..], labels[i + 1..], NextStart(original[i], start))
    ensures Concatenated(original[i..], labels[i..])
         == Frame(original[i], labels[i], Keep) + Concatenated(original[i + 1..], labels[i + 1..])
  {
    assert original[i..][1..] == original[i + 1..] && labels[i..][1..] == labels[i + 1..];
  }

  /** Series and labels are zipped, so the shorter list decides; every series comes validated, in increasing order. */
  method MergeSeries<L(==)>(original: seq<Series>, labels: seq<L>, timestampAlign: bool)
      returns (result: MergeResult<L>)
    requires forall s :: s in original ==> Increasing(s)
    ensures result == Validated(Min(|original|, |labels|),
      if timestampAlign then Stitched(original, labels, Some(0)) else Concatenated(original, labels))
  {
    var merged: seq<Row<L>> := [];
    var startTimestamp: Option<int> := Some(0);
    var n := Min(|original|, |labels|);
    assert original[0..] == original && labels[0..] == labels;
    for i := 0 to n
      invariant timestampAlign ==>
        Stitched(original, labels, Some(0)) == merged + Stitched(original[i..], labels[i..], startTimestamp)
      invariant !timestampAlign ==> Concatenated(original, labels) == merged + Concatenated(original[i..], labels[i..])
    {
      var series := original[i];
      var shift := if timestampAlign then ShiftTo(series, startTimestamp) else Keep;
      var frame := Frame(series, labels[i], shift);
      StitchedStep(original, labels, startTimestamp, i);
      if timestampAlign {
        startTimestamp := NextStart(series, startTimestamp);
        ConcatAssociates(merged, frame, Stitched(original[i + 1..], labels[i + 1..], startTimestamp));
      } else {
        ConcatAssociates(merged, frame, Concatenated(original[i + 1..], labels[i + 1..]));
      }
      merged := merged + frame;
    }
    assert original[n..] == [] || labels[n..] == [];
    assert merged + [] == merged;
    result := Validated(n, merged);
  }

  // ----- The stitched timeline -----

  function Span(s: Series): int { if s == [] then 0 else s[|s| - 1].time - s[0].time }

  /** Where series i starts: the spans of the earlier series and one second for each of them. */
  function StartOf(original: seq<Series>, i: nat): int
    requires i <= |original|
  {
    if i == 0 then 0 else StartOf(original, i - 1) + Span(original[i - 1]) + SECOND
  }

  function RowsBefore(original: seq<Series>, i: nat): (n: nat)
    requires i <= |original|
  {
    if i == 0 then 0 else RowsBefore(original, i - 1) + |original[i - 1]|
  }

  lemma {:induction false} StartOfTail(original: seq<Series>, i: nat)
    requires 0 < i <= |original|
    ensures StartOf(original, i) == Span(original[0]) + SECOND + StartOf(original[1..], i - 1)
    ensures RowsBefore(original, i) == |original[0]| + RowsBefore(original[1..], i - 1)
  {
    if i > 1 {
      StartOfTail(original, i - 1);
      assert original[1..][i - 2] == original[i - 1];
    }
  }

  ghost predicate AllPresent(original: seq<Series>)
  {
    forall i :: 0 <= i < |original| ==> original[i] != [] && Increasing(original[i])
  }

  /** Sample j of series i lands at the start of series i plus its distance from that series' first sample. */
  lemma {:induction false} StitchedAt<L>(original: seq<Series>, labels: seq<L>, start: int, i: nat, j: nat)
    requires AllPresent(original) && |labels| >= |original| && i < |original| && j < |original[i]|
    ensures var rows := Stitched(original, labels, Some(start)); var at := RowsBefore(original, i) + j;
      && |rows| == RowsBefore(original, |original|) && at < |rows|
      && rows[at] == Row(Some(start + StartOf(original, i) + original[i][j].time - original[i][0].time),
        original[i][j].value, labels[i])
    decreases |original|
  {
    StitchedLength(original, labels, Some(start));
    StartOfTail(original, |original|);
    if i > 0 {
      var next := start + Span(original[0]) + SECOND;
      assert NextStart(original[0], Some(start)) == Some(next);
      StartOfTail(original, i);
      assert original[1..][i - 1] == original[i];
      StitchedAt(original[1..], labels[1..], next, i - 1, j);
    } else {
      RowsBeforeGrows(original, 1, |original|);
      assert RowsBefore(original, 1) == |original[0]|;
    }
  }

  lemma {:induction false} StitchedLength<L>(original: seq<Series>, labels: seq<L>, start: Option<int>)
    requires |labels| >= |original|
    ensures |Stitched(original, labels, start)| == RowsBefore(original, |original|)
    decreases |original|
  {
    if original != [] {
      StitchedLength(original[1..], labels[1..], NextStart(original[0], start));
      StartOfTail(original, |original|);
    }
  }

  lemma {:induction false} RowsBeforeGrows(original: seq<Series>, i: nat, k: nat)
    requires i <= k <= |original|
    ensures RowsBefore(original, i) <= RowsBefore(original, k)
  {
    if i < k { RowsBeforeGrows(original, i, k - 1); }
  }

  ghost predicate Rising<L>(rows: seq<Row<L>>)
  {
    && (forall i :: 0 <= i < |rows| ==> rows[i].time.Some?)
    && (forall i, j :: 0 <= i < j < |rows| ==> rows[i].time.value < rows[j].time.value)
  }

  lemma FrameRises<L>(series: Series, source: L, start: int)
    requires series != [] && Increasing(series)
    ensures var rows := Frame(series, source, ShiftTo(series, Some(start)));
      Rising(rows) && rows[0].time == Some(start) && rows[|rows| - 1].time == Some(start + Span(series))
  {
  }

  /** A stitched run starts at `start`, rises, and ends after all spans and the gaps between them. */
  lemma {:induction false} StitchedRises<L>(original: seq<Series>, labels: seq<L>, start: int)
    requires AllPresent(original) && |labels| >= |original| && original != []
    ensures var rows := Stitched(original, labels, Some(start));
      && rows != [] && Rising(rows) && rows[0].time == Some(start)
      && rows[|rows| - 1].time == Some(start + StartOf(original, |original|) - SECOND)
    decreases |original|
  {
    var first := Frame(original[0], labels[0], ShiftTo(original[0], Some(start)));
    FrameRises(original[0], labels[0], start);
    StartOfTail(original, |original|);
    var next := start + Span(original[0]) + SECOND;
    assert NextStart(original[0], Some(start)) == Some(next);
    var rest := Stitched(original[1..], labels[1..], Some(next));
    assert Stitched(original, labels, Some(start)) == first + rest;
    if |original| > 1 {
      StitchedRises(original[1..], labels[1..], next);
      JoinRises(first, rest);
    } else {
      assert rest == [] && first + rest == first;
    }
  }

  lemma JoinRises<L>(a: seq<Row<L>>, b: seq<Row<L>>)
    requires Rising(a) && Rising(b) && a != [] && b != [] && a[|a| - 1].time.value < b[0].time.value
    ensures Rising(a + b) && (a + b)[0] == a[0] && (a + b)[|a + b| - 1] == b[|b| - 1]
  {
    assert forall i :: 0 <= i < |a| ==> a[i].time.value <= a[|a| - 1].time.value;
    assert forall i :: 0 <= i < |b| ==> b[0].time.value <= b[i].time.value;
  }

  /** Stitching non-empty series always succeeds: the timeline rises strictly from 0 to the sum of the spans plus one
      second per gap, so the uniqueness assertion never fires. */
  lemma StitchingSucceeds<L>(original: seq<Series>, labels: seq<L>)
    requires AllPresent(original) && |labels| >= |original| && original != []
    ensures var rows := Stitched(original, labels, Some(0));
      && Validated(|original|, rows) == Merged(rows)
      && Rising(rows) && rows != [] && rows[0].time == Some(0)
      && rows[|rows| - 1].time == Some(StartOf(original, |original|) - SECOND)
  {
    StitchedRises(original, labels, 0);
  }

  /** Differences inside a series survive, and neighbouring series are exactly one second apart. */
  lemma StitchingKeepsDifferences<L>(original: seq<Series>, labels: seq<L>, i: nat, j: nat, k: nat)
    requires AllPresent(original) && |labels| >= |original| && i < |original| && j < |original[i]| && k < |original[i]|
    ensures var rows := Stitched(original, labels, Some(0)); var from := RowsBefore(original, i);
      && from + j < |rows| && from + k < |rows| && rows[from + j].time.Some? && rows[from + k].time.Some?
      && rows[from + k].time.value - rows[from + j].time.value == original[i][k].time - original[i][j].time
      && rows[from + j].source == labels[i] && rows[from + j].value == original[i][j].value
      && (i + 1 < |original| ==>
            && from + |original[i]| < |rows| && rows[from + |original[i]| - 1].time.Some?
            && rows[from + |original[i]|].time.Some?
            && rows[from + |original[i]|].time.value - rows[from + |original[i]| - 1].time.value == SECOND)
  {
    StitchedAt(original, labels, 0, i, j);
    StitchedAt(original, labels, 0, i, k);
    if i + 1 < |original| {
      StitchedAt(original, labels, 0, i, |original[i]| - 1);
      StitchedAt(original, labels, 0, i + 1, 0);
      assert RowsBefore(original, i + 1) == RowsBefore(original, i) + |original[i]|;
    }
  }

  // ----- An empty series on the way -----

  lemma {:induction false} StitchedFromNaT<L>(original: seq<Series>, labels: seq<L>)
    requires |labels| >= |original|
    ensures forall r :: r in Stitched(original, labels, None) ==> r.time.None?
    decreases |original|
  {
    if original != [] {
      StitchedFromNaT(original[1..], labels[1..]);
    }
  }

  lemma {:induction false} StitchedParts<L>(before: seq<Series>, after: seq<Series>, labels: seq<L>, start: int)
    requires AllPresent(before) && |labels| == |before| + 1 + |after|
    ensures Stitched(before + [[]] + after, labels, Some(start))
         == Stitched(before, labels[..|before|], Some(start)) + Stitched(after, labels[|before| + 1..], None)
    decreases |before|
  {
    var all := before + [[]] + after;
    if before == [] {
      assert all[0] == [] && all[1..] == after;
    } else {
      var next := start + Span(before[0]) + SECOND;
      assert all[1..] == before[1..] + [[]] + after;
      StitchedParts(before[1..], after, labels[1..], next);
      assert labels[..|before|][1..] == labels[1..][..|before| - 1];
      assert labels[1..][|before[1..]| + 1..] == labels[|before| + 1..];
    }
  }

  lemma RisingThenNaT<L>(head: seq<Row<L>>, tail: seq<Row<L>>)
    requires Rising(head) && forall i :: 0 <= i < |tail| ==> tail[i].time.None?
    ensures UniqueTimes(head + tail) <==> |tail| <= 1
    ensures MonotonicTimes(head + tail)
  {
    var rows := head + tail;
    if |tail| >= 2 {
      assert rows[|head|].time == rows[|head| + 1].time;
    } else {
      forall i, j | 0 <= i < j < |rows| ensures rows[i].time != rows[j].time {
        assert rows[i] == head[i];
      }
    }
  }

  /** An empty series turns every later time into NaT. The merge then succeeds exactly when at most one sample
      follows. */
  lemma EmptySeriesPoisonsTheRest<L>(before: seq<Series>, after: seq<Series>, labels: seq<L>)
    requires AllPresent(before) && |labels| == |before| + 1 + |after|
    ensures Validated(|labels|, Stitched(before + [[]] + after, labels, Some(0))).Merged? <==>
      RowsBefore(after, |after|) <= 1
  {
    StitchedParts(before, after, labels, 0);
    var head, tail := Stitched(before, labels[..|before|], Some(0)), Stitched(after, labels[|before| + 1..], None);
    StitchedLength(after, labels[|before| + 1..], None);
    StitchedFromNaT(after, labels[|before| + 1..]);
    if before == [] {
      assert head == [] && Rising(head);
    } else {
      StitchedRises(before, labels[..|before|], 0);
    }
    assert forall i :: 0 <= i < |tail| ==> tail[i] in tail;
    RisingThenNaT(head, tail);
  }
}
