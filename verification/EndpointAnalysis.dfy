/** The analysis of one endpoint: crops, convergence, fault statistics, and the reload of the stored samples. */
module EndpointAnalysis {
  import opened Sequences
  import opened ClockAnalysis

  // ----- Reloading stored samples -----

  datatype LoadResult = MissingConvergence | MissingClockStep | NoData | Loaded(series: Series)

  /** The filters of load_samples_to_series, without a change of time origin. */
  function LoadSamples(samples: Series, convergedOnly: bool, removeClockStep: bool, force: bool,
      convergence: Option<int>, clockStep: Option<int>): LoadResult
  {
    if convergedOnly && convergence.None? then MissingConvergence
    else if removeClockStep && clockStep.None? && force then MissingClockStep
    else
      var afterConvergence := if convergedOnly then From(samples, convergence.value) else samples;
      var afterStep :=
        if removeClockStep && clockStep.Some? then From(afterConvergence, clockStep.value) else afterConvergence;
      if afterStep == [] then NoData else Loaded(afterStep)
  }

  // ----- Leading zeros -----

  /** Keeps the samples at which the cumulative count of non-zero values is not zero. */
  function CropZeros(s: Series, seen: nat): Series
  {
    if s == [] then [] else
      var count := seen + if s[0].value != 0 then 1 else 0;
      (if count != 0 then [s[0]] else []) + CropZeros(s[1..], count)
  }

  function NoLeadingZeros(s: Series): Series { CropZeros(s, 0) }

  function LeadingZeros(s: Series): (n: nat)
    ensures n <= |s| && (forall i :: 0 <= i < n ==> s[i].value == 0) && (n < |s| ==> s[n].value != 0)
  {
    if s == [] || s[0].value != 0 then 0 else LeadingZeros(s[1..]) + 1
  }

  lemma {:induction false} CropZerosIsSuffix(s: Series, seen: nat)
    ensures CropZeros(s, seen) == if seen > 0 then s else s[LeadingZeros(s)..]
  {
    if s != [] {
      CropZerosIsSuffix(s[1..], seen + if s[0].value != 0 then 1 else 0);
      assert s == [s[0]] + s[1..];
      if seen == 0 && s[0].value == 0 { assert s[1..][LeadingZeros(s[1..])..] == s[LeadingZeros(s)..]; }
    }
  }

  // ----- Medians -----

  predicate AtMost(a: int, b: int) { a <= b }

  function Below(t: int): int -> bool { (v: int) => v < t }

  function Values(s: Series): seq<int> { seq(|s|, i requires 0 <= i < |s| => s[i].value) }

  /** Twice the median: the two middle values of the sorted sample added up. NaN for no samples. */
  function DoubledMedian(vs: seq<int>): Option<int>
  {
    SortKeepsElements(vs, AtMost);
    if vs == [] then None else
      var sorted := Sort(vs, AtMost);
      Some(sorted[(|vs| - 1) / 2] + sorted[|vs| / 2])
  }

  lemma {:induction false} InsertCount(x: int, s: seq<int>, p: int -> bool)
    ensures Count(Insert(x, s, AtMost), p) == Count(s, p) + if p(x) then 1 else 0
  {
    if !(s == [] || AtMost(x, s[0])) {
      InsertCount(x, s[1..], p);
      assert ([s[0]] + Insert(x, s[1..], AtMost))[1..] == Insert(x, s[1..], AtMost);
    } else {
      assert ([x] + s)[1..] == s;
    }
  }

  lemma {:induction false} SortCount(s: seq<int>, p: int -> bool)
    ensures Count(Sort(s, AtMost), p) == Count(s, p)
  {
    if s != [] {
      SortCount(s[1..], p);
      InsertCount(s[0], Sort(s[1..], AtMost), p);
    }
  }

  lemma {:induction false} SortedRank(s: seq<int>, k: nat, t: int)
    requires SortedBy(s, AtMost) && k < |s|
    ensures s[k] < t <==> Count(s, Below(t)) > k
  {
    if s[0] >= t {
      assert forall i :: 0 < i < |s| ==> AtMost(s[0], s[i]);
      NoneBelow(s, t);
    } else if k > 0 {
      SortedRank(s[1..], k - 1, t);
    }
  }

  lemma {:induction false} NoneBelow(s: seq<int>, t: int)
    requires forall i :: 0 <= i < |s| ==> s[i] >= t
    ensures Count(s, Below(t)) == 0
  {
    if s != [] {
      NoneBelow(s[1..], t);
    }
  }

  /** The k-th smallest value lies below t exactly when more than k values do. */
  lemma RankBelow(vs: seq<int>, k: nat, t: int)
    requires k < |vs|
    ensures |Sort(vs, AtMost)| == |vs|
    ensures Sort(vs, AtMost)[k] < t <==> Count(vs, Below(t)) > k
  {
    SortKeepsElements(vs, AtMost);
    SortIsSorted(vs, AtMost);
    SortedRank(Sort(vs, AtMost), k, t);
    SortCount(vs, Below(t));
  }

  /** x is the k-th smallest value, counting from 0: at most k values are smaller, and more than k are not greater. */
  ghost predicate HasRank(vs: seq<int>, x: int, k: nat)
  {
    Count(vs, Below(x)) <= k < Count(vs, Below(x + 1))
  }

  lemma SortedHasRank(vs: seq<int>, k: nat)
    requires k < |vs|
    ensures |Sort(vs, AtMost)| == |vs| && HasRank(vs, Sort(vs, AtMost)[k], k)
  {
    RankBelow(vs, k, 0);
    RankBelow(vs, k, Sort(vs, AtMost)[k]);
    RankBelow(vs, k, Sort(vs, AtMost)[k] + 1);
  }

  /** The doubled median is the sum of the two middle values. */
  lemma DoubledMedianIsTheMiddle(vs: seq<int>) returns (lo: int, hi: int)
    requires vs != []
    ensures DoubledMedian(vs) == Some(lo + hi) && HasRank(vs, lo, (|vs| - 1) / 2) && HasRank(vs, hi, |vs| / 2)
  {
    SortedHasRank(vs, (|vs| - 1) / 2);
    SortedHasRank(vs, |vs| / 2);
    lo, hi := Sort(vs, AtMost)[(|vs| - 1) / 2], Sort(vs, AtMost)[|vs| / 2];
  }

  /** rolling(5).median() at index i >= 4. */
  function MedianOfLastFive(vs: seq<int>, i: nat): int
    requires 4 <= i < |vs|
  {
    SortKeepsElements(vs[i - 4..i + 1], AtMost);
    Sort(vs[i - 4..i + 1], AtMost)[2]
  }

  /** The first index from i on whose smoothed value lies below the threshold. */
  function FirstNormal(vs: seq<int>, threshold: int, i: nat): (r: Option<nat>)
    requires i >= 4
    ensures r.Some? ==> i <= r.value < |vs| && MedianOfLastFive(vs, r.value) < threshold
    ensures forall j :: i <= j < (if r.Some? then r.value else |vs|) ==> MedianOfLastFive(vs, j) >= threshold
    decreases |vs| - i
  {
    if i >= |vs| then None
    else if MedianOfLastFive(vs, i) < threshold then Some(i)
    else FirstNormal(vs, threshold, i + 1)
  }

  // ----- Inputs, stored fields and outcomes -----

  /** A fault record of the profile: value 1 when the fault sets in, 0 when it is resolved. */
  datatype Fault = Fault(time: int, value: int)

  datatype Inputs = Inputs(
    clock: Series, pathDelay: Series, faults: seq<Fault>,
    permissibleSteps: Option<int>, faultLocation: Option<string>, endpointType: string)

  /** The endpoint's columns that the analysis fills. */
  datatype Fields = Fields(
    clockStepTimestamp: Option<int>, clockStepMagnitude: Option<int>,
    convergenceTimestamp: Option<int>, convergenceDuration: Option<int>,
    convergenceMaxOffset: Option<int>, convergenceRate: Option<real>,
    convergedPercentage: Option<real>, convergedSamples: Option<int>,
    faultPreMedianDoubled: Option<int>, faultActualDuration: Option<int>, faultPostMax: Option<int>,
    faultReturnToNormal: Option<int>, faultMidMax: Option<int>)

  datatype Corruption =
    | DuplicateTimestamps | NotMonotonic | NoConvergence | TooManyFaults
    | FaultBeforeConvergence | FaultEndsBeforeStart | FaultOutOfRange | FaultMissing

  /** Any other exception: it leaves the profile unprocessed instead of marking it corrupt. */
  datatype Failure = TooManyClockSteps | ConvergenceLookup | NoConvergenceStatistics | NoPathDelay | AmbiguousFault

  datatype Outcome = NoSamples | Corrupt(reason: Corruption) | Raised(error: Failure) | Analysed

  predicate Unique(s: Series) { forall i, j :: 0 <= i < j < |s| ==> s[i].time != s[j].time }

  predicate NonDecreasing(s: Series) { forall i :: 0 < i < |s| ==> s[i - 1].time <= s[i].time }

  lemma {:induction false} UniqueNonDecreasing(s: Series)
    requires Unique(s) && NonDecreasing(s)
    ensures Increasing(s)
  {
    if s != [] {
      UniqueNonDecreasing(s[1..]);
      if |s| > 1 { assert s[0].time <= s[1].time; }
      forall i, j | 0 <= i < j < |s| ensures s[i].time < s[j].time {
        if i > 0 { assert s[1..][i - 1].time < s[1..][j - 1].time; }
        else if j > 1 { assert s[1..][0].time < s[1..][j - 1].time; }
      }
    }
  }

  // ----- The cuts of the series -----

  datatype Cuts = Cuts(noLeadingZeros: Series, noClockStep: Series, convergence: Series, converged: Series)

  function NoClockStep(noLeadingZeros: Series, step: Option<int>): Series
  {
    if step.Some? then After(noLeadingZeros, step.value) else []
  }

  function CutSeries(clock: Series, step: Option<int>, timestamp: int): Cuts
  {
    var noZeros := NoLeadingZeros(clock);
    var noStep := NoClockStep(noZeros, step);
    Cuts(noZeros, noStep, UpTo(noStep, timestamp), After(noStep, timestamp))
  }

  function AbsSeries(s: Series): (r: Series)
    ensures |r| == |s| && forall i :: 0 <= i < |s| ==> r[i].time == s[i].time && r[i].value == Abs(s[i].value)
  {
    seq(|s|, i requires 0 <= i < |s| => Sample(s[i].time, Abs(s[i].value)))
  }

  // ----- Fault statistics -----

  function IsBetween(start: int, end: int): Sample -> bool { (x: Sample) => start < x.time < end }

  /** The fault columns written for a fault from start to end; without samples after the fault the
      columns about the recovery keep their earlier values. */
  function FaultStatistics(abs: Series, start: int, end: int, f: Fields): Fields
  {
    var pre, mid, post := UpTo(abs, start), Filter(abs, IsBetween(start, end)), From(abs, end);
    var withPre := f.(faultPreMedianDoubled := DoubledMedian(Values(pre)));
    var withPost :=
      if post == [] then withPre else
        withPre.(
          faultActualDuration := if pre == [] then None else Some(post[0].time - pre[|pre| - 1].time),
          faultPostMax := MaxAbs(post),
          faultReturnToNormal := ReturnToNormal(post, withPre.faultPreMedianDoubled, end));
    if mid == [] then withPost else withPost.(faultMidMax := MaxAbs(mid))
  }

  function ReturnToNormal(post: Series, threshold: Option<int>, end: int): Option<int>
  {
    if threshold.None? then None else
      match FirstNormal(Values(post), threshold.value, 4)
      case None => None
      case Some(i) => Some(post[i].time - end)
  }

  function HasValue(v: int): Fault -> bool { (x: Fault) => x.value == v }

  /** The fault checks, in the order of the source, then the statistics. */
  function ProcessFaults(inputs: Inputs, abs: Series, lastTime: int, convergence: int, f: Fields): (Fields, Outcome)
  {
    var starts, ends := Filter(inputs.faults, HasValue(1)), Filter(inputs.faults, HasValue(0));
    if |inputs.faults| > 2 then (f, Corrupt(TooManyFaults))
    else if |starts| > 1 || (|starts| == 1 && |ends| > 1) then (f, Raised(AmbiguousFault))
    else if starts == [] || ends == [] then
      (f, if inputs.faultLocation.Some? then Corrupt(FaultMissing) else Analysed)
    else if starts[0].time <= convergence then (f, Corrupt(FaultBeforeConvergence))
    else if starts[0].time >= ends[0].time then (f, Corrupt(FaultEndsBeforeStart))
    else if ends[0].time > lastTime && inputs.faultLocation == Some(inputs.endpointType) then
      (f, Corrupt(FaultOutOfRange))
    else (FaultStatistics(abs, starts[0].time, ends[0].time, f), Analysed)
  }

  // ----- The whole analysis -----

  function WithClockStep(f: Fields, step: ClockStepResult): Fields
    requires step.ClockStep?
  {
    f.(clockStepTimestamp := step.time, clockStepMagnitude := Some(step.magnitude))
  }

  function WithConvergence(f: Fields, noStep: Series, c: ConvergenceResult, st: StatisticsResult): Fields
    requires c.Converged? && |c.flags| == |noStep| && st.Statistics?
  {
    f.(convergenceTimestamp := Some(c.timestamp), convergenceDuration := Some(c.duration),
      convergenceRate := Some(st.rate), convergenceMaxOffset := Some(st.maxOffset),
      convergedPercentage := RatioConvergedSamples(noStep, c.flags, c.timestamp),
      convergedSamples := Some(NumConvergedSamples(noStep, c.flags, c.timestamp)))
  }

  /** What process_timeseries_data does to the in-memory fields, and how it ends. */
  function Analyse(inputs: Inputs, f: Fields): (Fields, Outcome)
  {
    if inputs.clock == [] then (f, NoSamples)
    else if !Unique(inputs.clock) then (f, Corrupt(DuplicateTimestamps))
    else if !NonDecreasing(inputs.clock) then (f, Corrupt(NotMonotonic))
    else
      var noZeros := NoLeadingZeros(inputs.clock);
      var step := DetectClockStep(noZeros, inputs.permissibleSteps);
      if step.TooManySteps? then (f, Raised(TooManyClockSteps)) else
        AnalyseConvergence(inputs, WithClockStep(f, step), NoClockStep(noZeros, step.time))
  }

  function AnalyseConvergence(inputs: Inputs, f: Fields, noStep: Series): (Fields, Outcome)
  {
    match DetectClockConvergence(noStep)
    case NeverConverged => (f, Corrupt(NoConvergence))
    case LookupError => (f, Raised(ConvergenceLookup))
    case Converged(timestamp, duration, flags) =>
      var st := FromConvergenceSeries(duration, UpTo(noStep, timestamp));
      if !st.Statistics? then (f, Raised(NoConvergenceStatistics)) else
        var f' := WithConvergence(f, noStep, DetectClockConvergence(noStep), st);
        var path := LoadSamples(inputs.pathDelay, true, true, true, f'.convergenceTimestamp, f'.clockStepTimestamp);
        if !path.Loaded? then (f', Raised(NoPathDelay)) else
          ProcessFaults(inputs, AbsSeries(After(noStep, timestamp)), noStep[|noStep| - 1].time, timestamp, f')
  }

  /** A PTPEndpoint row in memory, and the row in the database. */
  class Endpoint {
    const inputs: Inputs
    var fields: Fields
    var stored: Fields

    constructor (inputs: Inputs, stored: Fields)
      ensures this.inputs == inputs && fields == stored && this.stored == stored
    {
      this.inputs, fields, this.stored := inputs, stored, stored;
    }

    method Save()
      modifies this`stored
      ensures stored == fields
    {
      stored := fields;
    }

    /** The row reaches the database only when the whole analysis goes through. */
    method ProcessTimeseriesData() returns (outcome: Outcome)
      modifies this
      ensures (fields, outcome) == Analyse(inputs, old(fields))
      ensures stored == if outcome.Analysed? then fields else old(stored)
    {
      if inputs.clock == [] {
        return NoSamples;
      }
      if !Unique(inputs.clock) {
        return Corrupt(DuplicateTimestamps);
      }
      if !NonDecreasing(inputs.clock) {
        return Corrupt(NotMonotonic);
      }
      var frameNoLeadingZeros := NoLeadingZeros(inputs.clock);
      var step := DetectClockStep(frameNoLeadingZeros, inputs.permissibleSteps);
      if step.TooManySteps? {
        return Raised(TooManyClockSteps);
      }
      fields := fields.(clockStepTimestamp := step.time);
      fields := fields.(clockStepMagnitude := Some(step.magnitude));
      var frameNoClockStep := NoClockStep(frameNoLeadingZeros, step.time);
      outcome := ProcessConvergence(frameNoClockStep);
      if outcome.Analysed? {
        Save();
      }
    }

    method ProcessConvergence(frameNoClockStep: Series) returns (outcome: Outcome)
      modifies this`fields
      ensures (fields, outcome) == AnalyseConvergence(inputs, old(fields), frameNoClockStep)
    {
      var convergence := DetectClockConvergence(frameNoClockStep);
      match convergence {
        case NeverConverged => return Corrupt(NoConvergence);
        case LookupError => return Raised(ConvergenceLookup);
        case Converged(timestamp, duration, flags) =>
          var convergenceSeries := UpTo(frameNoClockStep, timestamp);
          var statistics := FromConvergenceSeries(duration, convergenceSeries);
          if !statistics.Statistics? {
            return Raised(NoConvergenceStatistics);
          }
          fields := fields.(convergenceTimestamp := Some(timestamp));
          fields := fields.(convergenceDuration := Some(duration));
          fields := fields.(convergenceRate := Some(statistics.rate));
          fields := fields.(convergenceMaxOffset := Some(statistics.maxOffset));
          fields := fields.(convergedPercentage := RatioConvergedSamples(frameNoClockStep, flags, timestamp));
          fields := fields.(convergedSamples := Some(NumConvergedSamples(frameNoClockStep, flags, timestamp)));
          var convergedSeries := After(frameNoClockStep, timestamp);
          var pathDelay := LoadSamples(inputs.pathDelay, true, true, true, fields.convergenceTimestamp,
            fields.clockStepTimestamp);
          if !pathDelay.Loaded? {
            return Raised(NoPathDelay);
          }
          var result := ProcessFaults(inputs, AbsSeries(convergedSeries), frameNoClockStep[|frameNoClockStep| - 1].time,
            timestamp, fields);
          fields := result.0;
          outcome := result.1;
      }
    }
  }

  // ----- How the cuts relate to each other -----

  /** The cuts are slices of the series at indices z <= k <= j. */
  lemma CutIndices(clock: Series, step: int, timestamp: int) returns (z: nat, k: nat, j: nat)
    requires Increasing(clock)
    ensures z == LeadingZeros(clock) && z <= k <= j <= |clock|
    ensures NoLeadingZeros(clock) == clock[z..] && UpTo(clock[z..], step) == clock[z..k]
    ensures CutSeries(clock, Some(step), timestamp) == Cuts(clock[z..], clock[k..], clock[k..j], clock[j..])
    ensures forall i :: z <= i < |clock| ==> (i < k <==> clock[i].time <= step)
    ensures forall i :: k <= i < |clock| ==> (i < j <==> clock[i].time <= timestamp)
  {
    CropZerosIsSuffix(clock, 0);
    z := LeadingZeros(clock);
    k := CutSuffix(clock, z, step);
    j := CutSuffix(clock, k, timestamp);
  }

  /** The four crops are contiguous and make up the whole series: leading zeros, everything up to the clock
      step, the convergence phase and the converged rest. */
  lemma CropsPartitionTheSeries(clock: Series, step: int, timestamp: int)
    requires Increasing(clock)
    ensures var cuts := CutSeries(clock, Some(step), timestamp);
      && clock == clock[..LeadingZeros(clock)] + UpTo(cuts.noLeadingZeros, step) + cuts.convergence + cuts.converged
      && cuts.noLeadingZeros == clock[LeadingZeros(clock)..]
      && cuts.noClockStep == cuts.convergence + cuts.converged
  {
    var z, k, j := CutIndices(clock, step, timestamp);
    Slices(clock, z, k, j);
  }

  lemma StepCropOf(noZeros: Series, m: int)
    requires Increasing(noZeros) && m >= 1 && DetectClockStep(noZeros, Some(m)).ClockStep?
    ensures |Transitions(NoClockStep(noZeros, DetectClockStep(noZeros, Some(m)).time), IsClockStep)| <= m - 1
  {
    if noZeros == [] {
      assert Transitions([], IsClockStep) == [];
    } else {
      StepCropLeavesFewerJumps(noZeros, m);
    }
  }

  lemma NoLeadingZerosIncreasing(clock: Series)
    requires Increasing(clock)
    ensures Increasing(NoLeadingZeros(clock))
  {
    CropZerosIsSuffix(clock, 0);
  }

  /** With a limit of m >= 1 permitted steps, the series analysed for convergence has at most m - 1 jumps left. */
  lemma StepCropIsSound(inputs: Inputs, m: int)
    requires Increasing(inputs.clock) && inputs.permissibleSteps == Some(m) && m >= 1
    requires DetectClockStep(NoLeadingZeros(inputs.clock), Some(m)).ClockStep?
    ensures var step := DetectClockStep(NoLeadingZeros(inputs.clock), Some(m)).time;
      |Transitions(NoClockStep(NoLeadingZeros(inputs.clock), step), IsClockStep)| <= m - 1
  {
    NoLeadingZerosIncreasing(inputs.clock);
    StepCropOf(NoLeadingZeros(inputs.clock), m);
  }

  /** The analysis reached the convergence stage with these cuts. */
  ghost predicate Reaches(inputs: Inputs, step: int, timestamp: int, duration: int)
  {
    var detected := DetectClockStep(NoLeadingZeros(inputs.clock), inputs.permissibleSteps);
    var convergence := DetectClockConvergence(NoClockStep(NoLeadingZeros(inputs.clock), Some(step)));
    && Increasing(inputs.clock)
    && detected.ClockStep? && detected.time == Some(step)
    && convergence.Converged? && convergence.timestamp == timestamp && convergence.duration == duration
  }

  lemma FaultsKeepConvergence(inputs: Inputs, abs: Series, lastTime: int, convergence: int, f: Fields)
    ensures var g := ProcessFaults(inputs, abs, lastTime, convergence, f).0;
      && g.clockStepTimestamp == f.clockStepTimestamp && g.convergenceTimestamp == f.convergenceTimestamp
      && g.convergenceDuration == f.convergenceDuration && g.convergedSamples == f.convergedSamples
      && g.convergenceMaxOffset == f.convergenceMaxOffset && g.convergenceRate == f.convergenceRate
      && g.clockStepMagnitude == f.clockStepMagnitude && g.convergedPercentage == f.convergedPercentage
    ensures !ProcessFaults(inputs, abs, lastTime, convergence, f).1.NoSamples?
    ensures ProcessFaults(inputs, abs, lastTime, convergence, f).1 != Raised(NoConvergenceStatistics)
  {
  }

  /** The row's maximum offset and rate describe the convergence phase. */
  ghost predicate HoldsStatistics(row: Fields, duration: int, phase: Series)
  {
    && row.convergenceMaxOffset.Some? && row.convergenceRate.Some?
    && DescribesPhase(Statistics(duration, row.convergenceMaxOffset.value, row.convergenceRate.value), duration, phase)
  }

  /** What the row holds once a convergence was detected in noStep. */
  ghost predicate HoldsConvergence(row: Fields, f: Fields, noStep: Series, c: ConvergenceResult)
    requires c.Converged? && |c.flags| == |noStep|
  {
    && row.convergenceTimestamp == Some(c.timestamp) && row.convergenceDuration == Some(c.duration)
    && row.convergedSamples == Some(|After(noStep, c.timestamp)|)
    && row.convergedPercentage == RatioConvergedSamples(noStep, c.flags, c.timestamp)
    && HoldsStatistics(row, c.duration, UpTo(noStep, c.timestamp))
    && row.clockStepTimestamp == f.clockStepTimestamp && row.clockStepMagnitude == f.clockStepMagnitude
  }

  lemma ConvergenceStage(inputs: Inputs, f: Fields, noStep: Series, c: ConvergenceResult)
    requires Increasing(noStep) && c == DetectClockConvergence(noStep)
    ensures AnalyseConvergence(inputs, f, noStep).1 != Raised(NoConvergenceStatistics)
    ensures AnalyseConvergence(inputs, f, noStep).1.Analysed? ==>
      c.Converged? && f.clockStepTimestamp.Some?
        && HoldsConvergence(AnalyseConvergence(inputs, f, noStep).0, f, noStep, c)
  {
    if c.Converged? {
      StatisticsAreDefined(noStep);
      FlagsAfterAlign(noStep, c.flags, c.timestamp);
      var st := FromConvergenceSeries(c.duration, UpTo(noStep, c.timestamp));
      var g := WithConvergence(f, noStep, c, st);
      assert HoldsConvergence(g, f, noStep, c);
      FaultsKeepConvergence(inputs, AbsSeries(After(noStep, c.timestamp)), noStep[|noStep| - 1].time, c.timestamp, g);
    }
  }

  lemma NoClockStepIncreasing(clock: Series, step: Option<int>)
    requires Increasing(clock)
    ensures Increasing(NoClockStep(NoLeadingZeros(clock), step))
  {
    if step.Some? {
      var z, k, j := CutIndices(clock, step.value, 0);
    }
  }

  /** An analysis that gets as far as the convergence stage passed the timestamp checks and found the clock step. */
  lemma AnalysisStages(inputs: Inputs, f: Fields, step: ClockStepResult, noStep: Series)
    requires step == DetectClockStep(NoLeadingZeros(inputs.clock), inputs.permissibleSteps)
    requires step.ClockStep? ==> noStep == NoClockStep(NoLeadingZeros(inputs.clock), step.time)
    ensures Analyse(inputs, f).1.Analysed? || Analyse(inputs, f).1 == Raised(NoConvergenceStatistics) ==>
      && Increasing(inputs.clock) && step.ClockStep?
      && Analyse(inputs, f) == AnalyseConvergence(inputs, WithClockStep(f, step), noStep)
  {
    if inputs.clock != [] && Unique(inputs.clock) && NonDecreasing(inputs.clock) {
      UniqueNonDecreasing(inputs.clock);
    }
  }

  /** A successful analysis stores the step and convergence it cut at, so the theorems below apply to its row. It never
      fails for want of convergence statistics; its maximum offset and rate describe the convergence phase, and its
      sample count is that of the converged series. */
  lemma AnalysedRowHoldsTheCuts(inputs: Inputs, f: Fields)
    ensures Analyse(inputs, f).1 != Raised(NoConvergenceStatistics)
    ensures Analyse(inputs, f).1.Analysed? ==>
      var row := Analyse(inputs, f).0;
      && row.clockStepTimestamp.Some? && row.convergenceTimestamp.Some? && row.convergenceDuration.Some?
      && Reaches(inputs, row.clockStepTimestamp.value, row.convergenceTimestamp.value, row.convergenceDuration.value)
      && var cuts := CutSeries(inputs.clock, row.clockStepTimestamp, row.convergenceTimestamp.value);
         && row.convergedSamples == Some(|cuts.converged|)
         && HoldsStatistics(row, row.convergenceDuration.value, cuts.convergence)
  {
    var step := DetectClockStep(NoLeadingZeros(inputs.clock), inputs.permissibleSteps);
    if step.ClockStep? {
      var noStep := NoClockStep(NoLeadingZeros(inputs.clock), step.time);
      AnalysisStages(inputs, f, step, noStep);
      if Increasing(inputs.clock) {
        NoClockStepIncreasing(inputs.clock, step.time);
        ConvergenceStage(inputs, WithClockStep(f, step), noStep, DetectClockConvergence(noStep));
      }
    } else {
      AnalysisStages(inputs, f, step, []);
    }
  }

  // ----- Reload agreement -----

  function IsAt(t: int): Sample -> bool { (x: Sample) => x.time == t }

  /** The sample at time t, if the series has one. */
  function AtTime(s: Series, t: int): Series { Filter(s, IsAt(t)) }

  lemma TimeSlices(s: Series, t: int) returns (i: nat, k: nat)
    requires Increasing(s)
    ensures i <= k <= |s| && k <= i + 1
    ensures AtTime(s, t) == s[i..k] && From(s, t) == s[i..] && After(s, t) == s[k..]
    ensures i < k ==> s[i].time == t
    ensures i == k ==> forall n :: 0 <= n < |s| ==> s[n].time != t
  {
    k := CutAfter(s, t);
    i := if k > 0 && s[k - 1].time == t then k - 1 else k;
    forall n | 0 <= n < |s| ensures (s[n].time == t <==> i <= n < k) && (s[n].time >= t <==> i <= n) {
      if n < k && i < k { assert n == i || s[n].time < s[i].time; }
      if n < k && i == k { assert n == k - 1 || s[n].time < s[k - 1].time; }
    }
    FilterSlice(s, IsAt(t), i, k);
    FilterSlice(s, IsFrom(t), i, |s|);
  }

  /** On an increasing series, keeping times >= t is keeping times > t plus the sample at t, if there is one. */
  lemma FromIsAtPlusAfter(s: Series, t: int)
    requires Increasing(s)
    ensures From(s, t) == AtTime(s, t) + After(s, t) && |AtTime(s, t)| <= 1
    ensures AtTime(s, t) != [] <==> exists n :: 0 <= n < |s| && s[n].time == t
  {
    var i, k := TimeSlices(s, t);
    Slices(s, i, i, k);
  }

  lemma TailAfterConvergence(clock: Series, step: int, timestamp: int) returns (k: nat)
    requires Increasing(clock)
    ensures k <= |clock| && NoClockStep(NoLeadingZeros(clock), Some(step)) == clock[k..]
    ensures k < |clock| && clock[k].time < timestamp ==>
      step < timestamp && CutSeries(clock, Some(step), timestamp).converged == After(clock, timestamp)
  {
    var z, k', j := CutIndices(clock, step, timestamp);
    k := k';
    if k < |clock| && clock[k].time < timestamp {
      FilterSlice(clock, IsAfter(timestamp), j, |clock|);
    }
  }

  /** Where the analysis cut: the step lies before the convergence, and the converged series is everything after it. */
  lemma ReachedCuts(inputs: Inputs, step: int, timestamp: int, duration: int) returns (k: nat)
    requires Reaches(inputs, step, timestamp, duration)
    ensures step < timestamp && k < |inputs.clock|
    ensures CutSeries(inputs.clock, Some(step), timestamp).converged == After(inputs.clock, timestamp)
    ensures duration > MINIMUM_CONVERGENCE_TIME ==>
      exists i :: k <= i < |inputs.clock| && inputs.clock[i].time == timestamp
  {
    var clock := inputs.clock;
    k := TailAfterConvergence(clock, step, timestamp);
    ConvergenceTimes(clock[k..], DetectClockConvergence(clock[k..]));
    assert clock[k..][0] == clock[k];
    if duration > MINIMUM_CONVERGENCE_TIME {
      var i :| 0 <= i < |clock[k..]| && clock[k..][i].time == timestamp;
      assert clock[k + i].time == timestamp;
    }
  }

  /** Reloading the converged samples repeats the analysed converged series, preceded by the sample that lies exactly on
      the convergence timestamp, if any. The clock-step filter removes nothing. */
  lemma ReloadAgreement(inputs: Inputs, step: int, timestamp: int, duration: int)
    requires Reaches(inputs, step, timestamp, duration)
    ensures var converged := CutSeries(inputs.clock, Some(step), timestamp).converged;
      var at := AtTime(inputs.clock, timestamp); var reloaded := at + converged;
      && |at| <= 1
      && LoadSamples(inputs.clock, true, true, true, Some(timestamp), Some(step))
           == LoadSamples(inputs.clock, true, false, true, Some(timestamp), Some(step))
           == (if reloaded == [] then NoData else Loaded(reloaded))
      && (reloaded == converged <==> forall i :: 0 <= i < |inputs.clock| ==> inputs.clock[i].time != timestamp)
  {
    var k := ReachedCuts(inputs, step, timestamp, duration);
    FromIsAtPlusAfter(inputs.clock, timestamp);
    FilterMembers(inputs.clock, IsFrom(timestamp));
    FilterAllOrNothing(From(inputs.clock, timestamp), IsFrom(step));
  }

  /** The extra reloaded sample is the rule: only a convergence raised to the 10 s minimum can be without it. */
  lemma ReloadRepeatsTheConvergenceSample(inputs: Inputs, step: int, timestamp: int, duration: int)
    requires Reaches(inputs, step, timestamp, duration) && duration > MINIMUM_CONVERGENCE_TIME
    ensures |AtTime(inputs.clock, timestamp)| == 1
  {
    var k := ReachedCuts(inputs, step, timestamp, duration);
    FromIsAtPlusAfter(inputs.clock, timestamp);
  }

  // ----- Fault analysis -----

  lemma FaultPhaseIndices(abs: Series, start: int, end: int) returns (k: nat, j: nat)
    requires Increasing(abs) && start < end
    ensures k <= j <= |abs|
    ensures UpTo(abs, start) == abs[..k] && Filter(abs, IsBetween(start, end)) == abs[k..j]
      && From(abs, end) == abs[j..]
    ensures k > 0 ==> abs[k - 1].time <= start
    ensures j < |abs| ==> abs[j].time >= end
  {
    k := CutAfter(abs, start);
    j := CutSuffix(abs, k, end - 1);
    FilterSlice(abs, IsBetween(start, end), k, j);
    FilterSlice(abs, IsFrom(end), j, |abs|);
  }

  /** A fault that ends after it starts splits the converged series into contiguous phases, and the measured duration
      is at least the scheduled one. */
  lemma FaultPhasesPartition(abs: Series, start: int, end: int, f: Fields)
    requires Increasing(abs) && start < end
    ensures abs == UpTo(abs, start) + Filter(abs, IsBetween(start, end)) + From(abs, end)
    ensures UpTo(abs, start) != [] && From(abs, end) != [] ==>
      var duration := FaultStatistics(abs, start, end, f).faultActualDuration;
      duration.Some? && duration.value >= end - start
  {
    var k, j := FaultPhaseIndices(abs, start, end);
    Slices(abs, k, j, j);
  }

  /** m is the greatest offset of the series. */
  ghost predicate IsMaximum(m: Option<int>, s: Series)
  {
    && m.Some?
    && (forall x :: x in s ==> x.value <= m.value)
    && (exists x :: x in s && x.value == m.value)
  }

  lemma MaxAbsOfAbs(s: Series)
    requires s != [] && forall x :: x in s ==> x.value >= 0
    ensures IsMaximum(MaxAbs(s), s)
  {
    MaxAbsBounds(s);
  }

  /** The maxima stored for the phases of a fault, each kept from before when its phase has no samples. */
  lemma FaultMaxima(series: Series, start: int, end: int, f: Fields)
    ensures var abs := AbsSeries(series); var r := FaultStatistics(abs, start, end, f);
      && (if From(abs, end) == [] then r.faultPostMax == f.faultPostMax else IsMaximum(r.faultPostMax, From(abs, end)))
      && (if Filter(abs, IsBetween(start, end)) == [] then r.faultMidMax == f.faultMidMax
          else IsMaximum(r.faultMidMax, Filter(abs, IsBetween(start, end))))
  {
    var abs := AbsSeries(series);
    FilterMembers(abs, IsFrom(end));
    FilterMembers(abs, IsBetween(start, end));
    if From(abs, end) != [] { MaxAbsOfAbs(From(abs, end)); }
    if Filter(abs, IsBetween(start, end)) != [] { MaxAbsOfAbs(Filter(abs, IsBetween(start, end))); }
  }

  /** At least three of the five samples ending at index i lie below the threshold. */
  ghost predicate MostlyBelow(vs: seq<int>, i: nat, threshold: int)
  {
    4 <= i < |vs| && Count(vs[i - 4..i + 1], Below(threshold)) >= 3
  }

  lemma SmoothedBelow(vs: seq<int>, i: nat, threshold: int)
    requires 4 <= i < |vs|
    ensures MedianOfLastFive(vs, i) < threshold <==> MostlyBelow(vs, i, threshold)
  {
    RankBelow(vs[i - 4..i + 1], 2, threshold);
  }

  /** The clock is back to normal at the earliest sample after the fault, the fifth or later, whose last five
      samples include at least three below twice the median from before the fault. */
  lemma ReturnToNormalIsEarliest(post: Series, pre: Series, end: int)
    requires pre != []
    ensures var threshold, vs := DoubledMedian(Values(pre)).value, Values(post);
      match ReturnToNormal(post, DoubledMedian(Values(pre)), end)
      case None => forall i :: 0 <= i < |vs| ==> !MostlyBelow(vs, i, threshold)
      case Some(duration) =>
        exists i :: 0 <= i < |vs| && MostlyBelow(vs, i, threshold) && duration == post[i].time - end
          && (forall j :: 0 <= j < i ==> !MostlyBelow(vs, j, threshold))
  {
    var threshold := DoubledMedian(Values(pre)).value;
    var vs := Values(post);
    forall i: nat | 4 <= i < |vs| ensures MedianOfLastFive(vs, i) < threshold <==> MostlyBelow(vs, i, threshold) {
      SmoothedBelow(vs, i, threshold);
    }
    var first := FirstNormal(vs, threshold, 4);
    if first.Some? { assert MostlyBelow(vs, first.value, threshold); }
  }

  // ----- The fault columns of an analysed row -----

  /** What the fault columns say about the converged offsets, for a fault from start to end; columns of phases without
      samples keep what the row held before. */
  ghost predicate DescribesFault(row: Fields, earlier: Fields, abs: Series, start: int, end: int)
  {
    var pre, mid, post := UpTo(abs, start), Filter(abs, IsBetween(start, end)), From(abs, end);
    && abs == pre + mid + post
    && (if post == [] then row.faultActualDuration == earlier.faultActualDuration
        else if pre == [] then row.faultActualDuration == None
        else
          && row.faultActualDuration == Some(post[0].time - pre[|pre| - 1].time)
          && row.faultActualDuration.value >= end - start)
    && (if post == [] then row.faultPostMax == earlier.faultPostMax else IsMaximum(row.faultPostMax, post))
    && (if mid == [] then row.faultMidMax == earlier.faultMidMax else IsMaximum(row.faultMidMax, mid))
    && (if post == [] then row.faultReturnToNormal == earlier.faultReturnToNormal
        else if pre == [] then row.faultReturnToNormal == None
        else IsReturnToNormal(row.faultReturnToNormal, post, DoubledMedian(Values(pre)).value, end))
  }

  /** The time from the end of the fault to the earliest sample whose last five are mostly below the threshold, if any
      is. */
  ghost predicate IsReturnToNormal(duration: Option<int>, post: Series, threshold: int, end: int)
  {
    match duration
    case None => forall i :: 0 <= i < |post| ==> !MostlyBelow(Values(post), i, threshold)
    case Some(d) =>
      exists i :: 0 <= i < |post| && MostlyBelow(Values(post), i, threshold) && d == post[i].time - end
        && (forall j :: 0 <= j < i ==> !MostlyBelow(Values(post), j, threshold))
  }

  lemma StatisticsDescribeFault(series: Series, start: int, end: int, f: Fields, earlier: Fields)
    requires Increasing(series) && start < end
    requires earlier.faultActualDuration == f.faultActualDuration && earlier.faultPostMax == f.faultPostMax
    requires earlier.faultMidMax == f.faultMidMax && earlier.faultReturnToNormal == f.faultReturnToNormal
    ensures DescribesFault(FaultStatistics(AbsSeries(series), start, end, f), earlier, AbsSeries(series), start, end)
  {
    var abs := AbsSeries(series);
    FaultPhasesPartition(abs, start, end, f);
    FaultMaxima(series, start, end, f);
    var pre, post := UpTo(abs, start), From(abs, end);
    if pre != [] && post != [] { ReturnToNormalIsEarliest(post, pre, end); }
  }

  /** One record says when the fault set in and one when it was resolved. */
  ghost predicate OneFault(inputs: Inputs, start: int, end: int)
  {
    Filter(inputs.faults, HasValue(1)) == [Fault(start, 1)] && Filter(inputs.faults, HasValue(0)) == [Fault(end, 0)]
  }

  /** The fault stage succeeds only on a fault in order, and then fills the columns. */
  lemma FaultStage(inputs: Inputs, abs: Series, lastTime: int, convergence: int, f: Fields, start: int, end: int)
    requires OneFault(inputs, start, end) && ProcessFaults(inputs, abs, lastTime, convergence, f).1.Analysed?
    ensures convergence < start < end && (inputs.faultLocation == Some(inputs.endpointType) ==> end <= lastTime)
    ensures ProcessFaults(inputs, abs, lastTime, convergence, f).0 == FaultStatistics(abs, start, end, f)
  {
    assert [Fault(start, 1)][0] == Fault(start, 1) && [Fault(end, 0)][0] == Fault(end, 0);
  }

  /** The row's fault columns and convergence, once the fault was found in order in noStep. */
  ghost predicate HoldsFault(inputs: Inputs, row: Fields, earlier: Fields, noStep: Series, start: int, end: int)
  {
    && noStep != [] && row.convergenceTimestamp.Some? && row.convergenceTimestamp.value < start < end
    && (inputs.faultLocation == Some(inputs.endpointType) ==> end <= noStep[|noStep| - 1].time)
    && DescribesFault(row, earlier, AbsSeries(After(noStep, row.convergenceTimestamp.value)), start, end)
  }

  lemma ConvergenceStageFault(inputs: Inputs, f: Fields, noStep: Series, start: int, end: int)
    requires Increasing(noStep) && OneFault(inputs, start, end)
    ensures AnalyseConvergence(inputs, f, noStep).1.Analysed? ==>
      HoldsFault(inputs, AnalyseConvergence(inputs, f, noStep).0, f, noStep, start, end)
  {
    if AnalyseConvergence(inputs, f, noStep).1.Analysed? {
      var c := DetectClockConvergence(noStep);
      ConvergenceStage(inputs, f, noStep, c);
      var converged := After(noStep, c.timestamp);
      var k := CutAfter(noStep, c.timestamp);
      var g := WithConvergence(f, noStep, c, FromConvergenceSeries(c.duration, UpTo(noStep, c.timestamp)));
      FaultStage(inputs, AbsSeries(converged), noStep[|noStep| - 1].time, c.timestamp, g, start, end);
      StatisticsDescribeFault(converged, start, end, g, f);
    }
  }

  lemma LastTimeIsKept(clock: Series, step: Option<int>)
    requires Increasing(clock)
    ensures var noStep := NoClockStep(NoLeadingZeros(clock), step);
      Increasing(noStep) && (noStep != [] ==> clock != [] && noStep[|noStep| - 1].time == clock[|clock| - 1].time)
  {
    NoClockStepIncreasing(clock, step);
    if step.Some? {
      CropZerosIsSuffix(clock, 0);
      var k := CutSuffix(clock, LeadingZeros(clock), step.value);
      assert NoClockStep(NoLeadingZeros(clock), step) == clock[k..];
    }
  }

  /** End to end: a successful analysis of a profile with one fault found the fault in order after the convergence, and,
      on the endpoint it was injected on, over before the data ends; its row then describes the fault over the converged
      series. */
  lemma AnalysedRowDescribesFault(inputs: Inputs, f: Fields, start: int, end: int)
    requires OneFault(inputs, start, end)
    ensures Analyse(inputs, f).1.Analysed? ==>
      var row := Analyse(inputs, f).0;
      && row.clockStepTimestamp.Some? && row.convergenceTimestamp.Some? && inputs.clock != []
      && row.convergenceTimestamp.value < start < end
      && (inputs.faultLocation == Some(inputs.endpointType) ==> end <= inputs.clock[|inputs.clock| - 1].time)
      && DescribesFault(row, f,
           AbsSeries(CutSeries(inputs.clock, row.clockStepTimestamp, row.convergenceTimestamp.value).converged),
           start, end)
  {
    var step := DetectClockStep(NoLeadingZeros(inputs.clock), inputs.permissibleSteps);
    AnalysedRowHoldsTheCuts(inputs, f);
    AnalysisStages(inputs, f, step,
      if step.ClockStep? then NoClockStep(NoLeadingZeros(inputs.clock), step.time) else []);
    if step.ClockStep? && Increasing(inputs.clock) { FaultAfterStep(inputs, f, step, start, end); }
  }

  lemma FaultAfterStep(inputs: Inputs, f: Fields, step: ClockStepResult, start: int, end: int)
    requires Increasing(inputs.clock) && step.ClockStep? && OneFault(inputs, start, end)
    ensures var noStep := NoClockStep(NoLeadingZeros(inputs.clock), step.time);
      var (row, outcome) := AnalyseConvergence(inputs, WithClockStep(f, step), noStep);
      outcome.Analysed? ==>
        && HoldsFault(inputs, row, f, noStep, start, end)
        && inputs.clock != [] && noStep[|noStep| - 1].time == inputs.clock[|inputs.clock| - 1].time
  {
    var noStep := NoClockStep(NoLeadingZeros(inputs.clock), step.time);
    LastTimeIsKept(inputs.clock, step.time);
    ConvergenceStageFault(inputs, WithClockStep(f, step), noStep, start, end);
    if AnalyseConvergence(inputs, WithClockStep(f, step), noStep).1.Analysed? {
      var row := AnalyseConvergence(inputs, WithClockStep(f, step), noStep).0;
      SameEarlierColumns(row, WithClockStep(f, step), f, noStep, inputs, start, end);
    }
  }

  /** The clock step does not touch the fault columns. */
  lemma SameEarlierColumns(row: Fields, g: Fields, f: Fields, noStep: Series, inputs: Inputs, start: int, end: int)
    requires HoldsFault(inputs, row, g, noStep, start, end)
    requires g == f.(clockStepTimestamp := g.clockStepTimestamp, clockStepMagnitude := g.clockStepMagnitude)
    ensures HoldsFault(inputs, row, f, noStep, start, end)
  {
  }

  lemma FaultStageIff(inputs: Inputs, abs: Series, lastTime: int, convergence: int, f: Fields, start: int, end: int)
    requires OneFault(inputs, start, end) && |inputs.faults| == 2
    ensures var outcome := ProcessFaults(inputs, abs, lastTime, convergence, f).1;
      && (outcome.Analysed? <==>
            convergence < start < end && (inputs.faultLocation == Some(inputs.endpointType) ==> end <= lastTime))
      && (outcome.Analysed? || outcome.Corrupt?)
  {
    assert [Fault(start, 1)][0] == Fault(start, 1) && [Fault(end, 0)][0] == Fault(end, 0);
  }

  /** The convergence was found with these cuts, and there are path delays after it. */
  ghost predicate ReachesFaultStage(inputs: Inputs, step: int, timestamp: int, duration: int)
  {
    && Reaches(inputs, step, timestamp, duration)
    && LoadSamples(inputs.pathDelay, true, true, true, Some(timestamp), Some(step)).Loaded?
  }

  /** Once the convergence and the path delays are there, a profile with one fault is analysed exactly when the fault
      sets in after the convergence, ends after it starts and, on the endpoint it was injected on, ends within the data;
      otherwise the profile is corrupt. */
  lemma FaultInOrderIff(inputs: Inputs, f: Fields, step: int, timestamp: int, duration: int, start: int, end: int)
    requires OneFault(inputs, start, end) && |inputs.faults| == 2
    ensures ReachesFaultStage(inputs, step, timestamp, duration) ==>
      var outcome := Analyse(inputs, f).1;
      && inputs.clock != []
      && (outcome.Analysed? <==>
            timestamp < start < end
            && (inputs.faultLocation == Some(inputs.endpointType) ==> end <= inputs.clock[|inputs.clock| - 1].time))
      && (outcome.Analysed? || outcome.Corrupt?)
  {
    if ReachesFaultStage(inputs, step, timestamp, duration) {
      ReachedFaultStage(inputs, f, step, timestamp, duration, start, end);
    }
  }

  lemma ReachedFaultStage(inputs: Inputs, f: Fields, step: int, timestamp: int, duration: int, start: int, end: int)
    requires ReachesFaultStage(inputs, step, timestamp, duration) && OneFault(inputs, start, end)
      && |inputs.faults| == 2
    ensures var outcome := Analyse(inputs, f).1;
      && inputs.clock != []
      && (outcome.Analysed? <==>
            timestamp < start < end
            && (inputs.faultLocation == Some(inputs.endpointType) ==> end <= inputs.clock[|inputs.clock| - 1].time))
      && (outcome.Analysed? || outcome.Corrupt?)
  {
    var detected := DetectClockStep(NoLeadingZeros(inputs.clock), inputs.permissibleSteps);
    var noStep := NoClockStep(NoLeadingZeros(inputs.clock), Some(step));
    LastTimeIsKept(inputs.clock, Some(step));
    StatisticsAreDefined(noStep);
    var c := DetectClockConvergence(noStep);
    var g := WithConvergence(WithClockStep(f, detected), noStep, c,
      FromConvergenceSeries(c.duration, UpTo(noStep, timestamp)));
    FaultStageIff(inputs, AbsSeries(After(noStep, timestamp)), noStep[|noStep| - 1].time, timestamp, g, start, end);
    ReachedAnalysis(inputs, f, detected, noStep);
  }

  lemma ReachedAnalysis(inputs: Inputs, f: Fields, detected: ClockStepResult, noStep: Series)
    requires Increasing(inputs.clock) && inputs.clock != []
    requires detected == DetectClockStep(NoLeadingZeros(inputs.clock), inputs.permissibleSteps) && detected.ClockStep?
    requires noStep == NoClockStep(NoLeadingZeros(inputs.clock), detected.time)
    ensures Analyse(inputs, f) == AnalyseConvergence(inputs, WithClockStep(f, detected), noStep)
  {
  }
}
