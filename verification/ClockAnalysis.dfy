/** Clock step and convergence detection over a series of clock offsets; times and offsets in nanoseconds. */
module ClockAnalysis {
  import opened Sequences

  datatype Sample = Sample(time: int, value: int)

  type Series = seq<Sample>

  const SECOND := 1_000_000_000

  ghost predicate Increasing(s: Series)
  {
    forall i, j :: 0 <= i < j < |s| ==> s[i].time < s[j].time
  }

  // ----- Boolean indexing by time -----

  function IsAfter(t: int): Sample -> bool { (x: Sample) => x.time > t }

  function IsUpTo(t: int): Sample -> bool { (x: Sample) => x.time <= t }

  function IsFrom(t: int): Sample -> bool { (x: Sample) => x.time >= t }

  function After(s: Series, t: int): Series { Filter(s, IsAfter(t)) }

  function UpTo(s: Series, t: int): Series { Filter(s, IsUpTo(t)) }

  function From(s: Series, t: int): Series { Filter(s, IsFrom(t)) }

  lemma {:induction false} FilterSliceFrom(s: Series, p: Sample -> bool, a: nat, b: nat, i: nat)
    requires a <= b <= |s| && i <= |s|
    requires forall j :: i <= j < |s| ==> (p(s[j]) <==> a <= j < b)
    ensures Filter(s[i..], p) == if i <= a then s[a..b] else if i <= b then s[i..b] else []
    decreases |s| - i
  {
    if i < |s| {
      FilterSliceFrom(s, p, a, b, i + 1);
      assert s[i..][1..] == s[i + 1..];
      if a <= i < b { assert s[i..b] == [s[i]] + s[i + 1..b]; }
    }
  }

  /** A filter that accepts exactly the indices from a to b yields that slice. */
  lemma FilterSlice(s: Series, p: Sample -> bool, a: nat, b: nat)
    requires a <= b <= |s|
    requires forall i :: 0 <= i < |s| ==> (p(s[i]) <==> a <= i < b)
    ensures Filter(s, p) == s[a..b]
  {
    FilterSliceFrom(s, p, a, b, 0);
    assert s[0..] == s;
  }

  /** The first index at or past i whose time exceeds t. */
  function FirstAfter(s: Series, t: int, i: nat): (k: nat)
    requires i <= |s|
    ensures i <= k <= |s|
    ensures forall j :: i <= j < k ==> s[j].time <= t
    ensures k < |s| ==> s[k].time > t
    decreases |s| - i
  {
    if i == |s| || s[i].time > t then i else FirstAfter(s, t, i + 1)
  }

  /** On an increasing series a time bound cuts: what is kept on either side is a slice. */
  lemma CutAfter(s: Series, t: int) returns (k: nat)
    requires Increasing(s)
    ensures k <= |s| && UpTo(s, t) == s[..k] && After(s, t) == s[k..]
    ensures forall i :: 0 <= i < |s| ==> (i < k <==> s[i].time <= t)
  {
    k := FirstAfter(s, t, 0);
    FilterSlice(s, IsUpTo(t), 0, k);
    FilterSlice(s, IsAfter(t), k, |s|);
  }

  lemma CutSuffix(s: Series, from: nat, t: int) returns (k: nat)
    requires Increasing(s) && from <= |s|
    ensures from <= k <= |s| && UpTo(s[from..], t) == s[from..k] && After(s[from..], t) == s[k..]
    ensures forall i :: from <= i < |s| ==> (i < k <==> s[i].time <= t)
  {
    var n := CutAfter(s[from..], t);
    k := from + n;
    forall i | from <= i < |s| ensures i < k <==> s[i].time <= t { assert s[from..][i - from] == s[i]; }
  }

  // ----- Transitions: the indices at which neighbouring values change in a given way -----

  /** The value changes in the way p from index i - 1 to i. */
  predicate At(s: Series, p: (int, int) -> bool, i: int)
  {
    0 < i < |s| && p(s[i - 1].value, s[i].value)
  }

  function TransitionsUpTo(s: Series, p: (int, int) -> bool, n: nat): seq<nat>
  {
    if n == 0 then [] else TransitionsUpTo(s, p, n - 1) + if At(s, p, n - 1) then [n - 1] else []
  }

  function Transitions(s: Series, p: (int, int) -> bool): seq<nat> { TransitionsUpTo(s, p, |s|) }

  lemma {:induction false} TransitionsUpToMembers(s: Series, p: (int, int) -> bool, n: nat)
    ensures forall i :: i in TransitionsUpTo(s, p, n) <==> i < n && At(s, p, i)
    ensures forall a, b :: 0 <= a < b < |TransitionsUpTo(s, p, n)| ==>
      TransitionsUpTo(s, p, n)[a] < TransitionsUpTo(s, p, n)[b]
  {
    if n > 0 {
      TransitionsUpToMembers(s, p, n - 1);
      var earlier := TransitionsUpTo(s, p, n - 1);
      assert forall a :: 0 <= a < |earlier| ==> earlier[a] in earlier;
    }
  }

  lemma TransitionsMembers(s: Series, p: (int, int) -> bool)
    ensures forall i :: i in Transitions(s, p) <==> At(s, p, i)
    ensures forall a, b :: 0 <= a < b < |Transitions(s, p)| ==> Transitions(s, p)[a] < Transitions(s, p)[b]
  {
    TransitionsUpToMembers(s, p, |s|);
  }

  /** The transitions up to and including index k, and those inside the rest, make up all transitions. */
  lemma {:induction false} TransitionsSplit(s: Series, p: (int, int) -> bool, k: nat, n: nat)
    requires 0 < n && k + n <= |s|
    ensures |TransitionsUpTo(s, p, k + n)| == |TransitionsUpTo(s, p, k + 1)| + |TransitionsUpTo(s[k..], p, n)|
  {
    if n > 1 {
      TransitionsSplit(s, p, k, n - 1);
      assert At(s, p, k + n - 1) == At(s[k..], p, n - 1);
    } else {
      assert TransitionsUpTo(s[k..], p, 1) == [];
    }
  }

  // ----- Clock step -----

  predicate IsClockStep(before: int, now: int) { Abs(now - before) >= SECOND }

  /** time is None for an empty series, where pandas yields NaT. */
  datatype ClockStepResult = TooManySteps | ClockStep(time: Option<int>, magnitude: int)

  function DetectClockStep(s: Series, maxPermissible: Option<int>): ClockStepResult
  {
    var steps := Transitions(s, IsClockStep);
    TransitionsMembers(s, IsClockStep);
    assert steps != [] ==> steps[0] in steps;
    if maxPermissible.Some? && |steps| > maxPermissible.value then TooManySteps
    else if s == [] then ClockStep(None, 0)
    else if steps == [] then ClockStep(Some(s[0].time - SECOND), 0)
    else ClockStep(Some(s[steps[0]].time), Abs(s[steps[0]].value - s[steps[0] - 1].value))
  }

  /** The detection finds the first jump of a second or more, or a time before the whole series. */
  lemma ClockStepIsTheFirstJump(s: Series, maxPermissible: Option<int>, k: nat)
    requires Increasing(s) && s != [] && DetectClockStep(s, maxPermissible).ClockStep?
    requires k < |s|
    ensures var d := DetectClockStep(s, maxPermissible);
      && d.time.Some?
      && (d.time.value == s[k].time <==>
            At(s, IsClockStep, k)
            && forall i :: 0 < i < k ==> !At(s, IsClockStep, i))
      && (d.time.value < s[0].time <==> forall i :: 0 < i < |s| ==> !At(s, IsClockStep, i))
      && (d.time.value == s[k].time ==> d.magnitude == Abs(s[k].value - s[k - 1].value) >= SECOND)
  {
    TransitionsMembers(s, IsClockStep);
    var steps := Transitions(s, IsClockStep);
    if steps != [] {
      assert steps[0] in steps;
      forall i | 0 < i < steps[0] ensures !At(s, IsClockStep, i) {
        assert forall a :: 0 <= a < |steps| ==> steps[a] >= steps[0];
      }
    }
  }

  /** With a limit of m >= 1 permitted steps at most m - 1 jumps of a second or more survive the step crop. */
  lemma StepCropLeavesFewerJumps(s: Series, m: int)
    requires Increasing(s) && s != [] && m >= 1 && DetectClockStep(s, Some(m)).ClockStep?
    ensures |Transitions(After(s, DetectClockStep(s, Some(m)).time.value), IsClockStep)| <= m - 1
  {
    var steps := Transitions(s, IsClockStep);
    TransitionsMembers(s, IsClockStep);
    var t := DetectClockStep(s, Some(m)).time.value;
    var k := CutAfter(s, t);
    if steps == [] {
      assert k == 0 && s[0..] == s;
    } else {
      assert steps[0] in steps;
      assert steps[0] < k;
      if steps[0] + 1 < |s| { assert s[steps[0] + 1].time > t; }
      if k < |s| {
        TransitionsSplit(s, IsClockStep, k, |s| - k);
        TransitionsUpToMembers(s, IsClockStep, k + 1);
        assert steps[0] in TransitionsUpTo(s, IsClockStep, k + 1);
      }
    }
  }

  // ----- Sign changes and the sliding window -----

  function Sign(v: int): int { if v > 0 then 1 else if v < 0 then -1 else 0 }

  /** Twice the magnitude of a sign change: 2 for a full flip, 1 for a half flip to or from zero. */
  function DoubledChange(before: int, now: int): (m: nat)
    ensures m <= 2
  {
    Abs(Sign(now) - Sign(before))
  }

  predicate IsSignChange(before: int, now: int) { DoubledChange(before, now) > 0 }

  /** The doubled sign-change series; its first element is NaN. */
  function ChangeSeries(s: Series): (c: seq<Option<int>>)
    ensures |c| == |s|
  {
    seq(|s|, i requires 0 <= i < |s| => if i == 0 then None else Some(DoubledChange(s[i - 1].value, s[i].value)))
  }

  function ValueOf(x: Option<int>): int { if x.Some? then x.value else 0 }

  function Observed(x: Option<int>): int { if x.Some? then 1 else 0 }

  /** The running sum and number of observations of a sliding window: each step adds the element that
      enters and removes the one that leaves. */
  function Slide(xs: seq<Option<int>>, w: nat, i: nat): (int, int)
    requires 0 < w && i < |xs|
  {
    var (sum, count) := if i == 0 then (0, 0) else Slide(xs, w, i - 1);
    var leaving := if i >= w then xs[i - w] else None;
    (sum + ValueOf(xs[i]) - ValueOf(leaving), count + Observed(xs[i]) - Observed(leaving))
  }

  /** rolling(window = w).sum(): NaN until w observations are in the window. */
  function RollingSum(xs: seq<Option<int>>, w: nat): (r: seq<Option<int>>)
    requires 0 < w
    ensures |r| == |xs|
  {
    seq(|xs|, i requires 0 <= i < |xs| => var (sum, count) := Slide(xs, w, i); if count >= w then Some(sum) else None)
  }

  function Total(xs: seq<Option<int>>): int
  {
    if xs == [] then 0 else Total(xs[..|xs| - 1]) + ValueOf(xs[|xs| - 1])
  }

  function Observations(xs: seq<Option<int>>): int
  {
    if xs == [] then 0 else Observations(xs[..|xs| - 1]) + Observed(xs[|xs| - 1])
  }

  lemma {:induction false} AllObserved(xs: seq<Option<int>>)
    ensures 0 <= Observations(xs) <= |xs|
    ensures Observations(xs) == |xs| <==> forall i :: 0 <= i < |xs| ==> xs[i].Some?
  {
    if xs != [] {
      AllObserved(xs[..|xs| - 1]);
    }
  }

  lemma {:induction false} TotalDropsFirst(xs: seq<Option<int>>)
    requires xs != []
    ensures Total(xs) == ValueOf(xs[0]) + Total(xs[1..])
    ensures Observations(xs) == Observed(xs[0]) + Observations(xs[1..])
  {
    if |xs| > 1 {
      TotalDropsFirst(xs[..|xs| - 1]);
      assert xs[..|xs| - 1][1..] == xs[1..][..|xs| - 2];
    }
  }

  lemma WindowGrows(xs: seq<Option<int>>, lo: nat, hi: nat)
    requires lo <= hi < |xs|
    ensures Total(xs[lo..hi + 1]) == Total(xs[lo..hi]) + ValueOf(xs[hi])
    ensures Observations(xs[lo..hi + 1]) == Observations(xs[lo..hi]) + Observed(xs[hi])
  {
    SliceWithoutLast(xs, lo, hi + 1);
  }

  lemma WindowDropsFirst(xs: seq<Option<int>>, lo: nat, hi: nat)
    requires lo < hi <= |xs|
    ensures Total(xs[lo..hi]) == ValueOf(xs[lo]) + Total(xs[lo + 1..hi])
    ensures Observations(xs[lo..hi]) == Observed(xs[lo]) + Observations(xs[lo + 1..hi])
  {
    TotalDropsFirst(xs[lo..hi]);
    assert xs[lo..hi][1..] == xs[lo + 1..hi];
  }

  lemma WindowMoves(xs: seq<Option<int>>, lo: nat, hi: nat)
    requires lo < hi < |xs|
    ensures Total(xs[lo + 1..hi + 1]) == Total(xs[lo..hi]) + ValueOf(xs[hi]) - ValueOf(xs[lo])
    ensures Observations(xs[lo + 1..hi + 1]) == Observations(xs[lo..hi]) + Observed(xs[hi]) - Observed(xs[lo])
  {
    WindowGrows(xs, lo, hi);
    WindowDropsFirst(xs, lo, hi + 1);
  }

  lemma SlideStep(xs: seq<Option<int>>, w: nat, i: nat)
    requires 0 < w && 0 < i < |xs|
    ensures var before := Slide(xs, w, i - 1);
      Slide(xs, w, i) ==
        (before.0 + ValueOf(xs[i]) - (if i >= w then ValueOf(xs[i - w]) else 0),
         before.1 + Observed(xs[i]) - (if i >= w then Observed(xs[i - w]) else 0))
  {
  }

  /** The sliding sum equals the direct sum over the window at every index. */
  lemma {:induction false} SlideIsDirect(xs: seq<Option<int>>, w: nat, i: nat)
    requires 0 < w && i < |xs|
    ensures var window := xs[Max(i + 1 - w, 0)..i + 1]; Slide(xs, w, i) == (Total(window), Observations(window))
  {
    if i == 0 {
      WindowGrows(xs, 0, 0);
    } else {
      SlideIsDirect(xs, w, i - 1);
      SlideStep(xs, w, i);
      if i < w {
        WindowGrows(xs, 0, i);
      } else {
        WindowMoves(xs, i - w, i);
      }
    }
  }

  const WINDOW := 15

  /** Which samples are in converged state: more than 3 changes, that is 6 half changes, in the window. */
  function ConvergedFlags(s: Series): (flags: seq<bool>)
    ensures |flags| == |s|
  {
    var rolling := RollingSum(ChangeSeries(s), WINDOW);
    seq(|s|, i requires 0 <= i < |s| => rolling[i].Some? && rolling[i].value > 6)
  }

  function DoubledChangesIn(s: Series, from: nat, until: nat): int
    requires 0 < from <= until <= |s|
    decreases until - from
  {
    if from == until then 0 else
      DoubledChangesIn(s, from, until - 1) + DoubledChange(s[until - 2].value, s[until - 1].value)
  }

  lemma {:induction false} TotalOfChanges(s: Series, from: nat, until: nat)
    requires 0 < from <= until <= |s|
    ensures Total(ChangeSeries(s)[from..until]) == DoubledChangesIn(s, from, until)
    decreases until - from
  {
    if from < until {
      TotalOfChanges(s, from, until - 1);
      WindowGrows(ChangeSeries(s), from, until - 1);
    }
  }

  /** The flag of index i is set exactly when 15 changes end at i and they sum to more than 3. */
  lemma FlagsAreWindowSums(s: Series, i: nat)
    requires i < |s|
    ensures ConvergedFlags(s)[i] <==> i >= WINDOW && DoubledChangesIn(s, i - 14, i + 1) > 6
  {
    var changes := ChangeSeries(s);
    SlideIsDirect(changes, WINDOW, i);
    var window := changes[Max(i + 1 - WINDOW, 0)..i + 1];
    AllObserved(window);
    if i >= WINDOW {
      assert |window| == WINDOW && forall j :: 0 <= j < |window| ==> window[j].Some?;
      TotalOfChanges(s, i - 14, i + 1);
    } else {
      assert |window| <= WINDOW && window[0].None?;
      assert Observations(window) < WINDOW;
    }
  }

  ghost function ChangesIn(s: Series, from: nat, until: nat): set<nat>
  {
    set i: nat | from <= i < until && At(s, IsSignChange, i)
  }

  lemma {:induction false} FewChangesSumLow(s: Series, from: nat, until: nat)
    requires 0 < from <= until <= |s|
    ensures DoubledChangesIn(s, from, until) <= 2 * |ChangesIn(s, from, until)|
    decreases until - from
  {
    if from < until {
      FewChangesSumLow(s, from, until - 1);
      assert ChangesIn(s, from, until)
          == ChangesIn(s, from, until - 1) + if At(s, IsSignChange, until - 1) then {until - 1} else {};
    }
  }

  /** Every flagged window holds at least four sign changes. */
  lemma FlaggedWindowHasFourChanges(s: Series, i: nat)
    requires i < |s| && ConvergedFlags(s)[i]
    ensures i >= WINDOW && |ChangesIn(s, i - 14, i + 1)| >= 4
  {
    FlagsAreWindowSums(s, i);
    FewChangesSumLow(s, i - 14, i + 1);
  }

  // ----- Convergence -----

  const MINIMUM_CONVERGENCE_TIME := 10 * SECOND

  const FLIPS_DURING_CONVERGENCE := 5

  /** LookupError: exactly five sign changes pass the length guard, but the lookup reads a sixth. */
  datatype ConvergenceResult =
    | NeverConverged
    | LookupError
    | Converged(timestamp: int, duration: int, flags: seq<bool>)

  function DetectClockConvergence(s: Series): (c: ConvergenceResult)
    ensures c.Converged? ==> s != [] && |c.flags| == |s|
  {
    var changes := Transitions(s, IsSignChange);
    TransitionsMembers(s, IsSignChange);
    if |changes| < FLIPS_DURING_CONVERGENCE then NeverConverged
    else if |changes| == FLIPS_DURING_CONVERGENCE then LookupError
    else
      assert changes[FLIPS_DURING_CONVERGENCE] in changes;
      var timestamp := s[changes[FLIPS_DURING_CONVERGENCE]].time;
      var duration := timestamp - s[0].time;
      if duration < MINIMUM_CONVERGENCE_TIME
      then Converged(s[0].time + MINIMUM_CONVERGENCE_TIME, MINIMUM_CONVERGENCE_TIME, ConvergedFlags(s))
      else Converged(timestamp, duration, ConvergedFlags(s))
  }

  /** The indices of the sign changes strictly before t. */
  ghost function ChangesBefore(s: Series, t: int): set<nat>
  {
    set i | 0 < i < |s| && s[i].time < t && At(s, IsSignChange, i)
  }

  ghost function ChangeSet(s: Series): set<nat>
  {
    set i | 0 < i < |s| && At(s, IsSignChange, i)
  }

  ghost function Elements(xs: seq<nat>): set<nat> { set x | x in xs }

  lemma {:induction false} DistinctCardinality(xs: seq<nat>)
    requires forall a, b :: 0 <= a < b < |xs| ==> xs[a] < xs[b]
    ensures |Elements(xs)| == |xs|
  {
    if xs != [] {
      var front := xs[..|xs| - 1];
      DistinctCardinality(front);
      assert Elements(xs) == Elements(front) + {xs[|xs| - 1]};
    }
  }

  /** The three outcomes by the number of sign changes in the series. */
  lemma OutcomeByNumberOfChanges(s: Series)
    ensures DetectClockConvergence(s).NeverConverged? <==> |ChangeSet(s)| < 5
    ensures DetectClockConvergence(s).LookupError? <==> |ChangeSet(s)| == 5
    ensures DetectClockConvergence(s).Converged? <==> |ChangeSet(s)| > 5
  {
    var changes := Transitions(s, IsSignChange);
    TransitionsMembers(s, IsSignChange);
    DistinctCardinality(changes);
    assert ChangeSet(s) == Elements(changes);
  }

  /** The first n changes are the changes before the n-th one (counting from 0). */
  lemma ChangesBeforeNth(s: Series, n: nat)
    requires Increasing(s) && n < |Transitions(s, IsSignChange)|
    ensures var changes := Transitions(s, IsSignChange);
      && At(s, IsSignChange, changes[n])
      && |ChangesBefore(s, s[changes[n]].time)| == n
  {
    var changes := Transitions(s, IsSignChange);
    TransitionsMembers(s, IsSignChange);
    assert changes[n] in changes;
    var first := changes[..n];
    DistinctCardinality(first);
    forall x ensures x in ChangesBefore(s, s[changes[n]].time) <==> x in first {
      if x in first {
        var a :| 0 <= a < n && first[a] == x;
        assert changes[a] in changes;
      }
      if x in ChangesBefore(s, s[changes[n]].time) {
        var a :| 0 <= a < |changes| && changes[a] == x;
        assert a < n && first[a] == x;
      }
    }
    assert ChangesBefore(s, s[changes[n]].time) == Elements(first);
  }

  lemma MoreChangesLater(s: Series, i: nat, t: int)
    requires Increasing(s) && At(s, IsSignChange, i) && s[i].time < t
    ensures |ChangesBefore(s, t)| >= |ChangesBefore(s, s[i].time)| + 1
  {
    var earlier := ChangesBefore(s, s[i].time);
    SubsetCardinality(earlier + {i}, ChangesBefore(s, t));
  }

  /** A detected convergence lies `duration` >= 10 s after the first sample and at least five sign changes precede
      it. With exactly five it is the time of the sixth change; with more it was raised to the minimum. */
  lemma ConvergenceFollowsFiveChanges(s: Series)
    requires Increasing(s) && DetectClockConvergence(s).Converged?
    ensures s != []
    ensures var c := DetectClockConvergence(s);
      && c.timestamp == s[0].time + c.duration && c.duration >= MINIMUM_CONVERGENCE_TIME
      && |ChangesBefore(s, c.timestamp)| >= 5
      && (|ChangesBefore(s, c.timestamp)| == 5 ==> exists i :: At(s, IsSignChange, i) && s[i].time == c.timestamp)
      && (|ChangesBefore(s, c.timestamp)| > 5 ==> c.duration == MINIMUM_CONVERGENCE_TIME)
  {
    var c := DetectClockConvergence(s);
    var sixth := Transitions(s, IsSignChange)[5];
    ChangesBeforeNth(s, 5);
    if s[sixth].time - s[0].time < MINIMUM_CONVERGENCE_TIME {
      MoreChangesLater(s, sixth, c.timestamp);
    }
  }

  /** The same without counting: when, and where, a detected convergence lies. */
  lemma ConvergenceTimes(s: Series, c: ConvergenceResult)
    requires Increasing(s) && c == DetectClockConvergence(s) && c.Converged?
    ensures s != [] && c.timestamp == s[0].time + c.duration && c.duration >= MINIMUM_CONVERGENCE_TIME
    ensures c.duration > MINIMUM_CONVERGENCE_TIME ==> exists i :: 0 <= i < |s| && s[i].time == c.timestamp
  {
    ConvergenceFollowsFiveChanges(s);
  }

  lemma {:induction false} SubsetCardinality(a: set<nat>, b: set<nat>)
    requires a <= b
    ensures |a| <= |b|
  {
    if a != {} {
      var x :| x in a;
      SubsetCardinality(a - {x}, b - {x});
    }
  }

  // ----- Convergence statistics -----

  function MaxAbs(s: Series): Option<int>
  {
    if s == [] then None else
      match MaxAbs(s[1..])
      case None => Some(Abs(s[0].value))
      case Some(m) => Some(Max(Abs(s[0].value), m))
  }

  lemma {:induction false} MaxAbsBounds(s: Series)
    ensures MaxAbs(s).None? <==> s == []
    ensures MaxAbs(s).Some? ==>
      && (forall x :: x in s ==> Abs(x.value) <= MaxAbs(s).value)
      && exists x :: x in s && Abs(x.value) == MaxAbs(s).value
  {
    if s != [] {
      MaxAbsBounds(s[1..]);
      assert s == [s[0]] + s[1..];
      assert s[0] in s;
      if |s| > 1 {
        var x :| x in s[1..] && Abs(x.value) == MaxAbs(s[1..]).value;
        assert x in s;
      }
    }
  }

  /** NoStatistics: no data in the convergence phase; ZeroDuration: the RuntimeError. Rate in offset per second. */
  datatype StatisticsResult = NoStatistics | ZeroDuration | Statistics(time: int, maxOffset: int, rate: real)

  function Seconds(duration: int): real { duration as real / SECOND as real }

  function FromConvergenceSeries(duration: int, convergence: Series): StatisticsResult
  {
    match MaxAbs(convergence)
    case None => NoStatistics
    case Some(m) =>
      if duration == 0 then ZeroDuration
      else Statistics(duration, m, m as real / Seconds(duration))
  }

  /** Statistics over this phase: the maximum bounds every offset, is attained, and equals rate * duration. */
  ghost predicate DescribesPhase(st: StatisticsResult, duration: int, phase: Series)
  {
    && st.Statistics? && st.time == duration
    && st.rate * Seconds(duration) == st.maxOffset as real
    && (forall x :: x in phase ==> Abs(x.value) <= st.maxOffset)
    && (exists x :: x in phase && Abs(x.value) == st.maxOffset)
  }

  lemma RateTimesDuration(maxOffset: real, seconds: real)
    requires seconds > 0.0
    ensures maxOffset / seconds * seconds == maxOffset
  {
  }

  lemma RateBoundsOffsets(duration: int, phase: Series)
    requires phase != [] && duration > 0
    ensures DescribesPhase(FromConvergenceSeries(duration, phase), duration, phase)
  {
    MaxAbsBounds(phase);
    RateTimesDuration(MaxAbs(phase).value as real, Seconds(duration));
  }

  /** For every detected convergence the phase is not empty, so the statistics exist and bound its offsets. */
  lemma StatisticsAreDefined(s: Series)
    requires Increasing(s) && DetectClockConvergence(s).Converged?
    ensures var c := DetectClockConvergence(s); var phase := UpTo(s, c.timestamp);
      s != [] && s[0] in phase && DescribesPhase(FromConvergenceSeries(c.duration, phase), c.duration, phase)
  {
    ConvergenceFollowsFiveChanges(s);
    var c := DetectClockConvergence(s);
    FilterMembers(s, IsUpTo(c.timestamp));
    RateBoundsOffsets(c.duration, UpTo(s, c.timestamp));
  }

  function CountTrue(flags: seq<bool>): (n: nat)
    ensures n <= |flags|
  {
    if flags == [] then 0 else (if flags[0] then 1 else 0) + CountTrue(flags[1..])
  }

  /** The flags of the samples after t. */
  function FlagsAfter(s: Series, flags: seq<bool>, t: int): seq<bool>
    requires |flags| == |s|
  {
    if s == [] then [] else (if s[0].time > t then [flags[0]] else []) + FlagsAfter(s[1..], flags[1..], t)
  }

  /** The flags kept are those of the samples kept. */
  lemma {:induction false} FlagsAfterAlign(s: Series, flags: seq<bool>, t: int)
    requires |flags| == |s|
    ensures |FlagsAfter(s, flags, t)| == |After(s, t)|
  {
    if s != [] {
      FlagsAfterAlign(s[1..], flags[1..], t);
    }
  }

  /** On an increasing series they are the flags from the first sample after t on. */
  lemma {:induction false} FlagsAfterIsSuffix(s: Series, flags: seq<bool>, t: int, k: nat)
    requires |flags| == |s| && k <= |s| && forall i :: 0 <= i < |s| ==> (i < k <==> s[i].time <= t)
    ensures FlagsAfter(s, flags, t) == flags[k..]
  {
    if s != [] {
      assert forall i :: 0 <= i < |s[1..]| ==> s[1..][i] == s[i + 1];
      FlagsAfterIsSuffix(s[1..], flags[1..], t, if k == 0 then 0 else k - 1);
      assert flags == [flags[0]] + flags[1..];
    }
  }

  /** The stored sample count is the length of the tail, whatever the flags say. */
  function NumConvergedSamples(s: Series, flags: seq<bool>, t: int): nat
    requires |flags| == |s|
  {
    |FlagsAfter(s, flags, t)|
  }

  function RatioConvergedSamples(s: Series, flags: seq<bool>, t: int): (r: Option<real>)
    requires |flags| == |s|
    ensures r.Some? ==> 0.0 <= r.value <= 1.0
  {
    var tail := FlagsAfter(s, flags, t);
    if tail == [] then None else Some(CountTrue(tail) as real / |tail| as real)
  }

  /** With k samples up to t, the ratio is the share of set flags among the other |s| - k, and missing exactly when
      there are none; the stored number of converged samples is |s| - k. */
  lemma RatioIsTheShareOfFlags(s: Series, flags: seq<bool>, t: int, k: nat)
    requires |flags| == |s| && k <= |s| && forall i :: 0 <= i < |s| ==> (i < k <==> s[i].time <= t)
    ensures RatioConvergedSamples(s, flags, t)
         == if k == |s| then None else Some(CountTrue(flags[k..]) as real / (|s| - k) as real)
    ensures NumConvergedSamples(s, flags, t) == |s| - k
  {
    FlagsAfterIsSuffix(s, flags, t, k);
  }
}
