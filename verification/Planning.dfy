/** Batch planning: which benchmark tasks are queued, how many of each, and in which order. */
module Planning {
  import opened Sequences

  datatype Benchmark = Benchmark(id: string, duration: int, numMachines: nat, faultHardware: bool)

  datatype Cluster = Cluster(id: string, machines: nat, faultHardwareSupported: bool, supportedVendors: seq<string>)
  {
    predicate SupportsBenchmark(b: Benchmark) {
      b.numMachines <= machines && (!b.faultHardware || faultHardwareSupported)
    }
  }

  /** The options of the queue-benchmarks command that shape the batch. */
  datatype Request = Request(
    priority: int, durationMinutes: Option<int>, test: bool, analyze: bool, targetCount: Option<int>, addPause: bool)

  /** A stored benchmark run, as far as the quota looks at it. */
  datatype StoredProfile =
    StoredProfile(benchmark: string, vendor: string, cluster: string, processed: bool, corrupted: bool)

  datatype Command =
    | Orchestrate(
        benchmark: string, vendor: string, cluster: string, durationMinutes: Option<int>, test: bool, analyze: bool)
    | ManualPause
    | Shell(text: string)

  datatype NewTask = NewTask(command: Command, estimatedTime: int, priority: int)

  /** One eligible combination: the task that would run it and how many copies are needed. */
  datatype QuotaRow = QuotaRow(task: NewTask, need: nat)

  const NANOSECONDS_PER_MINUTE := 60_000_000_000

  /** A finished run of the combination: processed and uncorrupted. */
  predicate IsRunOf(p: StoredProfile, benchmark: string, vendor: string, cluster: string)
  {
    p.processed && !p.corrupted && p.benchmark == benchmark && p.vendor == vendor && p.cluster == cluster
  }

  function RunOf(benchmark: string, vendor: string, cluster: string): StoredProfile -> bool
  {
    (p: StoredProfile) => IsRunOf(p, benchmark, vendor, cluster)
  }

  /** The runs counted towards a target: only those of analysed vendors. */
  function CountedRunOf(benchmark: string, vendor: string, cluster: string,
      analysedVendors: seq<string>): StoredProfile -> bool
  {
    (p: StoredProfile) => IsRunOf(p, benchmark, vendor, cluster) && p.vendor in analysedVendors
  }

  datatype Context = Context(request: Request, profiles: seq<StoredProfile>, analysedVendors: seq<string>)
  {
    function Existing(benchmark: string, vendor: string, cluster: string): nat {
      Count(profiles, CountedRunOf(benchmark, vendor, cluster, analysedVendors))
    }

    function NeedOf(benchmark: string, vendor: string, cluster: string): nat {
      match request.targetCount
      case Some(target) => Max(target - Existing(benchmark, vendor, cluster), 0)
      case None => 1
    }

    function Need(b: Benchmark, c: Cluster, v: string): nat { NeedOf(b.id, v, c.id) }

    function TaskFor(b: Benchmark, c: Cluster, v: string): NewTask {
      NewTask(
        Orchestrate(b.id, v, c.id, request.durationMinutes, request.test, request.analyze),
        match request.durationMinutes
        case Some(minutes) => minutes * NANOSECONDS_PER_MINUTE
        case None => b.duration,
        request.priority)
    }

    function RowFor(b: Benchmark, c: Cluster, v: string): QuotaRow {
      QuotaRow(TaskFor(b, c, v), Need(b, c, v))
    }

    // The quota table, one row per eligible combination in the order of the nested loops.

    function VendorRows(b: Benchmark, c: Cluster, vendors: seq<string>): seq<QuotaRow> {
      if vendors == [] then [] else
        var v := vendors[|vendors| - 1];
        VendorRows(b, c, vendors[..|vendors| - 1]) + if v in c.supportedVendors then [RowFor(b, c, v)] else []
    }

    function ClusterRows(b: Benchmark, clusters: seq<Cluster>, vendors: seq<string>): seq<QuotaRow> {
      if clusters == [] then [] else
        var c := clusters[|clusters| - 1];
        ClusterRows(b, clusters[..|clusters| - 1], vendors)
          + if c.SupportsBenchmark(b) then VendorRows(b, c, vendors) else []
    }

    function Rows(benchmarks: seq<Benchmark>, clusters: seq<Cluster>, vendors: seq<string>): seq<QuotaRow> {
      if benchmarks == [] then [] else
        Rows(benchmarks[..|benchmarks| - 1], clusters, vendors)
          + ClusterRows(benchmarks[|benchmarks| - 1], clusters, vendors)
    }
  }

  // ----- Slots: copy `iteration` of quota row `row` -----

  datatype Slot = Slot(iteration: nat, row: nat)

  function OfIteration(k: nat): Slot -> bool { (s: Slot) => s.iteration == k }

  function OfRow(row: nat): Slot -> bool { (s: Slot) => s.row == row }

  predicate NoLaterIteration(a: Slot, b: Slot) { a.iteration <= b.iteration }

  /** The order in which the loops append: all copies of a row together. */
  function RowByRow(needs: seq<nat>): seq<Slot>
  {
    if needs == [] then [] else
      var last := |needs| - 1;
      RowByRow(needs[..last]) + seq(needs[last], i requires 0 <= i => Slot(i, last))
  }

  /** Copy k of every row that needs more than k copies. */
  function Column(needs: seq<nat>, k: nat): seq<Slot>
  {
    if needs == [] then [] else
      var last := |needs| - 1;
      Column(needs[..last], k) + if needs[last] > k then [Slot(k, last)] else []
  }

  function Columns(needs: seq<nat>, k: nat, limit: nat): seq<Slot>
    decreases limit - k
  {
    if k >= limit then [] else Column(needs, k) + Columns(needs, k + 1, limit)
  }

  function MaxNeed(needs: seq<nat>): (m: nat)
    ensures forall r :: 0 <= r < |needs| ==> needs[r] <= m
  {
    if needs == [] then 0 else Max(needs[|needs| - 1], MaxNeed(needs[..|needs| - 1]))
  }

  /** The ragged quota table read column by column. */
  function ColumnByColumn(needs: seq<nat>): seq<Slot>
  {
    Columns(needs, 0, MaxNeed(needs))
  }

  lemma {:induction false} RunFilter(n: nat, row: nat, k: nat, from: nat)
    requires from <= n
    ensures Filter(seq(n, i requires 0 <= i => Slot(i, row))[from..], OfIteration(k))
         == if from <= k < n then [Slot(k, row)] else []
    decreases n - from
  {
    if from < n {
      RunFilter(n, row, k, from + 1);
      var run := seq(n, i requires 0 <= i => Slot(i, row));
      assert run[from..][1..] == run[from + 1..];
    }
  }

  lemma {:induction false} RowByRowColumn(needs: seq<nat>, k: nat)
    ensures Filter(RowByRow(needs), OfIteration(k)) == Column(needs, k)
  {
    if needs != [] {
      var last := |needs| - 1;
      var run := seq(needs[last], i requires 0 <= i => Slot(i, last));
      RowByRowColumn(needs[..last], k);
      RunFilter(needs[last], last, k, 0);
      assert run[0..] == run;
      FilterConcat(RowByRow(needs[..last]), run, OfIteration(k));
    }
  }

  lemma {:induction false} ColumnIteration(needs: seq<nat>, k: nat)
    ensures forall s :: s in Column(needs, k) ==> s.iteration == k && s.row < |needs| && k < needs[s.row]
  {
    if needs != [] {
      ColumnIteration(needs[..|needs| - 1], k);
    }
  }

  lemma {:induction false} ColumnPastNeed(needs: seq<nat>, k: nat)
    requires k >= MaxNeed(needs)
    ensures Column(needs, k) == []
  {
    if needs != [] {
      ColumnPastNeed(needs[..|needs| - 1], k);
    }
  }

  lemma {:induction false} ColumnsOrdered(needs: seq<nat>, k: nat, limit: nat)
    ensures forall s :: s in Columns(needs, k, limit) ==> k <= s.iteration < limit && s.row < |needs|
    ensures SortedBy(Columns(needs, k, limit), NoLaterIteration)
    decreases limit - k
  {
    if k < limit {
      ColumnsOrdered(needs, k + 1, limit);
      ColumnIteration(needs, k);
    }
  }

  lemma {:induction false} ColumnsColumn(needs: seq<nat>, from: nat, limit: nat, k: nat)
    ensures Filter(Columns(needs, from, limit), OfIteration(k))
         == if from <= k < limit then Column(needs, k) else []
    decreases limit - from
  {
    if from < limit {
      var p := OfIteration(k);
      ColumnsColumn(needs, from + 1, limit, k);
      FilterConcat(Column(needs, from), Columns(needs, from + 1, limit), p);
      ColumnIteration(needs, from);
      FilterAllOrNothing(Column(needs, from), p);
    }
  }

  /** Two arrangements sorted by iteration with the same columns are the same arrangement. */
  lemma {:induction false} ColumnsDetermineOrder(s: seq<Slot>, t: seq<Slot>)
    requires SortedBy(s, NoLaterIteration) && SortedBy(t, NoLaterIteration)
    requires forall k: nat :: Filter(s, OfIteration(k)) == Filter(t, OfIteration(k))
    ensures s == t
  {
    if s == [] && t == [] {
    } else {
      SameFirstSlot(s, t);
      forall k: nat
        ensures Filter(s[1..], OfIteration(k)) == Filter(t[1..], OfIteration(k))
      {
        var p := OfIteration(k);
        var head := if p(s[0]) then [s[0]] else [];
        assert head + Filter(s[1..], p) == Filter(s, p) == Filter(t, p) == head + Filter(t[1..], p);
        assert Filter(s[1..], p) == Filter(s, p)[|head|..];
        assert Filter(t[1..], p) == Filter(t, p)[|head|..];
      }
      ColumnsDetermineOrder(s[1..], t[1..]);
      assert s == [s[0]] + s[1..] && t == [t[0]] + t[1..];
    }
  }

  lemma SameFirstSlot(s: seq<Slot>, t: seq<Slot>)
    requires s != [] || t != []
    requires SortedBy(s, NoLaterIteration) && SortedBy(t, NoLaterIteration)
    requires forall k: nat :: Filter(s, OfIteration(k)) == Filter(t, OfIteration(k))
    ensures s != [] && t != [] && s[0] == t[0]
  {
    if s != [] { HeadIsNoLater(s, t); }
    if t != [] { HeadIsNoLater(t, s); }
    var k := s[0].iteration;
    var p := OfIteration(k);
    assert Filter(s, p) == Filter(t, p);
    assert Filter(s, p)[0] == s[0] && Filter(t, p)[0] == t[0];
  }

  lemma HeadIsNoLater(s: seq<Slot>, t: seq<Slot>)
    requires s != [] && SortedBy(t, NoLaterIteration)
    requires forall k: nat :: Filter(s, OfIteration(k)) == Filter(t, OfIteration(k))
    ensures t != [] && t[0].iteration <= s[0].iteration
  {
    var k := s[0].iteration;
    var p := OfIteration(k);
    assert Filter(s, p) == Filter(t, p);
    FilterMembers(s, p);
    FilterMembers(t, p);
    assert s[0] in Filter(t, p);
  }

  /** Round-robin planning: the stable sort by iteration reads the quota table column by column. */
  lemma StableSortReadsColumns(needs: seq<nat>)
    ensures Sort(RowByRow(needs), NoLaterIteration) == ColumnByColumn(needs)
  {
    var sorted := Sort(RowByRow(needs), NoLaterIteration);
    SortIsSorted(RowByRow(needs), NoLaterIteration);
    ColumnsOrdered(needs, 0, MaxNeed(needs));
    forall k: nat
      ensures Filter(sorted, OfIteration(k))
           == Filter(ColumnByColumn(needs), OfIteration(k))
    {
      SortIsStable(RowByRow(needs), NoLaterIteration, OfIteration(k));
      RowByRowColumn(needs, k);
      ColumnsColumn(needs, 0, MaxNeed(needs), k);
      if k >= MaxNeed(needs) { ColumnPastNeed(needs, k); }
    }
    ColumnsDetermineOrder(sorted, ColumnByColumn(needs));
  }

  // ----- Quotas and fairness -----

  function CopiesOf(slots: seq<Slot>, row: nat): nat
  {
    Count(slots, OfRow(row))
  }

  lemma {:induction false} ColumnCopies(needs: seq<nat>, k: nat, row: nat)
    ensures CopiesOf(Column(needs, k), row) == if row < |needs| && needs[row] > k then 1 else 0
  {
    if needs != [] {
      var last := |needs| - 1;
      ColumnCopies(needs[..last], k, row);
      CountConcat(Column(needs[..last], k), if needs[last] > k then [Slot(k, last)] else [], OfRow(row));
    }
  }

  /** The copies a row with this need has in columns from..to. */
  function Copies(need: nat, from: nat, to: nat): int
  {
    Max(Min(need, to) - from, 0)
  }

  /** Every prefix is some number of whole columns plus part of the next one. */
  lemma {:induction false} PrefixIsWholeColumnsAndAPart(needs: seq<nat>, from: nat, limit: nat, n: nat) returns (k: nat)
    requires from <= limit && n <= |Columns(needs, from, limit)|
    ensures from <= k <= limit
    ensures forall row :: 0 <= row < |needs| ==>
      Copies(needs[row], from, k) <= CopiesOf(Columns(needs, from, limit)[..n], row) <= Copies(needs[row], from, k) + 1
    decreases limit - from
  {
    k := from;
    var prefix := Columns(needs, from, limit)[..n];
    if from < limit {
      var column, rest := Column(needs, from), Columns(needs, from + 1, limit);
      if n < |column| {
        assert prefix == column[..n] && column == column[..n] + column[n..];
        forall row | 0 <= row < |needs| ensures CopiesOf(prefix, row) <= 1 {
          CountConcat(column[..n], column[n..], OfRow(row));
          ColumnCopies(needs, from, row);
        }
      } else {
        k := PrefixIsWholeColumnsAndAPart(needs, from + 1, limit, n - |column|);
        assert prefix == column + rest[..n - |column|];
        forall row | 0 <= row < |needs|
          ensures Copies(needs[row], from, k) <= CopiesOf(prefix, row) <= Copies(needs[row], from, k) + 1
        {
          CountConcat(column, rest[..n - |column|], OfRow(row));
          ColumnCopies(needs, from, row);
        }
      }
    }
  }

  /** In every prefix of the plan, row a has all its copies or at most one fewer than any row b. */
  lemma PrefixFairness(needs: seq<nat>, n: nat, a: nat, b: nat)
    requires n <= |ColumnByColumn(needs)| && a < |needs| && b < |needs|
    ensures CopiesOf(ColumnByColumn(needs)[..n], a) >= Min(needs[a], CopiesOf(ColumnByColumn(needs)[..n], b) - 1)
  {
    var k := PrefixIsWholeColumnsAndAPart(needs, 0, MaxNeed(needs), n);
  }

  lemma {:induction false} ColumnsCopies(needs: seq<nat>, from: nat, limit: nat, row: nat)
    requires row < |needs|
    ensures CopiesOf(Columns(needs, from, limit), row) == Copies(needs[row], from, limit)
    decreases limit - from
  {
    if from < limit {
      ColumnsCopies(needs, from + 1, limit, row);
      ColumnCopies(needs, from, row);
      CountConcat(Column(needs, from), Columns(needs, from + 1, limit), OfRow(row));
    }
  }

  /** Every row is planned exactly as often as it is needed. */
  lemma QuotaMet(needs: seq<nat>, row: nat)
    requires row < |needs|
    ensures CopiesOf(ColumnByColumn(needs), row) == needs[row]
  {
    ColumnsCopies(needs, 0, MaxNeed(needs), row);
  }

  // ----- From slots to tasks -----

  datatype IndexedTask = IndexedTask(iteration: nat, task: NewTask)

  function TaskOf(t: IndexedTask): NewTask { t.task }

  predicate NoLaterTask(a: IndexedTask, b: IndexedTask) { a.iteration <= b.iteration }

  function Needs(rows: seq<QuotaRow>): (needs: seq<nat>)
    ensures |needs| == |rows|
  {
    seq(|rows|, i requires 0 <= i < |rows| => rows[i].need)
  }

  ghost predicate Within(slots: seq<Slot>, rows: seq<QuotaRow>)
  {
    forall s :: s in slots ==> s.row < |rows|
  }

  ghost function Indexed(slots: seq<Slot>, rows: seq<QuotaRow>): seq<IndexedTask>
    requires Within(slots, rows)
  {
    seq(|slots|, i requires 0 <= i < |slots| => IndexedTask(slots[i].iteration, rows[slots[i].row].task))
  }

  ghost function Tasks(slots: seq<Slot>, rows: seq<QuotaRow>): seq<NewTask>
    requires Within(slots, rows)
  {
    seq(|slots|, i requires 0 <= i < |slots| => rows[slots[i].row].task)
  }

  lemma {:induction false} InsertIndexed(x: Slot, slots: seq<Slot>, rows: seq<QuotaRow>)
    requires Within([x] + slots, rows)
    ensures Within(slots, rows) && Within(Insert(x, slots, NoLaterIteration), rows)
    ensures Insert(Indexed([x], rows)[0], Indexed(slots, rows), NoLaterTask)
      == Indexed(Insert(x, slots, NoLaterIteration), rows)
  {
    assert forall s :: s in slots ==> s in [x] + slots;
    assert x in [x] + slots;
    if slots != [] && !NoLaterIteration(x, slots[0]) {
      assert Within([x] + slots[1..], rows);
      InsertIndexed(x, slots[1..], rows);
      assert Indexed(slots, rows)[1..] == Indexed(slots[1..], rows);
    }
  }

  lemma {:induction false} SortIndexed(slots: seq<Slot>, rows: seq<QuotaRow>)
    requires Within(slots, rows)
    ensures Within(Sort(slots, NoLaterIteration), rows)
    ensures Sort(Indexed(slots, rows), NoLaterTask) == Indexed(Sort(slots, NoLaterIteration), rows)
  {
    if slots != [] {
      SortIndexed(slots[1..], rows);
      assert Indexed(slots, rows)[1..] == Indexed(slots[1..], rows);
      InsertIndexed(slots[0], Sort(slots[1..], NoLaterIteration), rows);
    }
  }

  lemma {:induction false} RowByRowWithin(needs: seq<nat>, rows: seq<QuotaRow>)
    requires |needs| <= |rows|
    ensures Within(RowByRow(needs), rows)
  {
    if needs != [] {
      RowByRowWithin(needs[..|needs| - 1], rows);
    }
  }

  /** The planned tasks of a quota table: the table read column by column. */
  ghost function Planned(rows: seq<QuotaRow>): seq<NewTask>
  {
    ColumnsOrdered(Needs(rows), 0, MaxNeed(Needs(rows)));
    Tasks(ColumnByColumn(Needs(rows)), rows)
  }

  const PAUSE_TIME := 60 * NANOSECONDS_PER_MINUTE

  ghost function Batch(rows: seq<QuotaRow>, request: Request): seq<NewTask>
  {
    if request.addPause && Planned(rows) != []
    then Planned(rows) + [NewTask(ManualPause, PAUSE_TIME, request.priority)]
    else Planned(rows)
  }

  /** What the loops have appended after visiting these quota rows. */
  ghost function Appended(rows: seq<QuotaRow>): seq<IndexedTask>
  {
    RowByRowWithin(Needs(rows), rows);
    Indexed(RowByRow(Needs(rows)), rows)
  }

  lemma AppendedStep(rows: seq<QuotaRow>, row: QuotaRow)
    ensures Appended(rows + [row]) == Appended(rows) + seq(row.need, i requires 0 <= i => IndexedTask(i, row.task))
  {
    assert Needs(rows + [row])[..|rows|] == Needs(rows);
    RowByRowWithin(Needs(rows), rows);
    RowByRowWithin(Needs(rows + [row]), rows + [row]);
  }

  lemma SortedAppendedIsPlanned(rows: seq<QuotaRow>)
    ensures Map(TaskOf, Sort(Appended(rows), NoLaterTask)) == Planned(rows)
    ensures |Planned(rows)| == |Appended(rows)|
  {
    RowByRowWithin(Needs(rows), rows);
    SortIndexed(RowByRow(Needs(rows)), rows);
    StableSortReadsColumns(Needs(rows));
    SortKeepsElements(Appended(rows), NoLaterTask);
  }

  /** Innermost loops: appends the missing copies for every supported vendor. */
  method IndexVendors(b: Benchmark, c: Cluster, vendors: seq<string>, ctx: Context,
      tasksWithIndex: seq<IndexedTask>, ghost rows: seq<QuotaRow>)
    returns (extended: seq<IndexedTask>)
    requires tasksWithIndex == Appended(rows)
    ensures extended == Appended(rows + ctx.VendorRows(b, c, vendors))
  {
    extended := tasksWithIndex;
    ghost var visited := rows;
    for k := 0 to |vendors|
      invariant visited == rows + ctx.VendorRows(b, c, vendors[..k])
      invariant extended == Appended(visited)
    {
      var v := vendors[k];
      assert vendors[..k + 1][..k] == vendors[..k];
      if v !in c.supportedVendors {
        continue;
      }
      var task, need := ctx.TaskFor(b, c, v), ctx.Need(b, c, v);
      ghost var before := extended;
      for i := 0 to need
        invariant extended == before + seq(i, m requires 0 <= m => IndexedTask(m, task))
      {
        extended := extended + [IndexedTask(i, task)];
      }
      AppendedStep(visited, ctx.RowFor(b, c, v));
      visited := visited + [ctx.RowFor(b, c, v)];
    }
    assert vendors[..|vendors|] == vendors;
  }

  method IndexClusters(b: Benchmark, clusters: seq<Cluster>, vendors: seq<string>, ctx: Context,
      tasksWithIndex: seq<IndexedTask>, ghost rows: seq<QuotaRow>)
    returns (extended: seq<IndexedTask>)
    requires tasksWithIndex == Appended(rows)
    ensures extended == Appended(rows + ctx.ClusterRows(b, clusters, vendors))
  {
    extended := tasksWithIndex;
    ghost var visited := rows;
    assert rows + [] == rows;
    for j := 0 to |clusters|
      invariant visited == rows + ctx.ClusterRows(b, clusters[..j], vendors)
      invariant extended == Appended(visited)
    {
      var c := clusters[j];
      assert clusters[..j + 1][..j] == clusters[..j];
      if !c.SupportsBenchmark(b) {
        continue;
      }
      extended := IndexVendors(b, c, vendors, ctx, extended, visited);
      visited := visited + ctx.VendorRows(b, c, vendors);
    }
    assert clusters[..|clusters|] == clusters;
  }

  /** Sorts the collected tasks by iteration, adds the pause and asks for confirmation. */
  method ArrangeBatch(tasksWithIndex: seq<IndexedTask>, ghost rows: seq<QuotaRow>, request: Request, confirmed: bool)
    returns (queued: Option<seq<NewTask>>)
    requires tasksWithIndex == Appended(rows)
    ensures queued == if |Planned(rows)| >= 5 && !confirmed then None else Some(Batch(rows, request))
  {
    SortedAppendedIsPlanned(rows);
    var tasks := Map(TaskOf, Sort(tasksWithIndex, NoLaterTask));
    if request.addPause && |tasks| > 0 {
      tasks := tasks + [NewTask(ManualPause, PAUSE_TIME, request.priority)];
    }
    if |tasksWithIndex| >= 5 && !confirmed {
      return None;
    }
    return Some(tasks);
  }

  /** An empty selection means everything that is analysed. */
  function Selected<T(==)>(chosen: seq<T>, analysed: seq<T>): seq<T> { if chosen == [] then analysed else chosen }

  method IndexBenchmarks(benchmarks: seq<Benchmark>, clusters: seq<Cluster>, vendors: seq<string>, ctx: Context)
    returns (tasksWithIndex: seq<IndexedTask>)
    ensures tasksWithIndex == Appended(ctx.Rows(benchmarks, clusters, vendors))
  {
    tasksWithIndex := [];
    ghost var rows: seq<QuotaRow> := [];
    for i := 0 to |benchmarks|
      invariant rows == ctx.Rows(benchmarks[..i], clusters, vendors)
      invariant tasksWithIndex == Appended(rows)
    {
      assert benchmarks[..i + 1][..i] == benchmarks[..i];
      tasksWithIndex := IndexClusters(benchmarks[i], clusters, vendors, ctx, tasksWithIndex, rows);
      rows := rows + ctx.ClusterRows(benchmarks[i], clusters, vendors);
    }
    assert benchmarks[..|benchmarks|] == benchmarks;
  }

  /** Plans a batch; None when the operator declines the prompt shown for five tasks or more. */
  method QueueBenchmarks(benchmarks: seq<Benchmark>, clusters: seq<Cluster>, vendors: seq<string>,
      analysedClusters: seq<Cluster>, ctx: Context, confirmed: bool)
    returns (queued: Option<seq<NewTask>>)
    ensures
      var rows := ctx.Rows(benchmarks, Selected(clusters, analysedClusters), Selected(vendors, ctx.analysedVendors));
      queued == if |Planned(rows)| >= 5 && !confirmed then None else Some(Batch(rows, ctx.request))
  {
    var chosenClusters, chosenVendors := Selected(clusters, analysedClusters), Selected(vendors, ctx.analysedVendors);
    var tasksWithIndex := IndexBenchmarks(benchmarks, chosenClusters, chosenVendors, ctx);
    queued := ArrangeBatch(tasksWithIndex, ctx.Rows(benchmarks, chosenClusters, chosenVendors), ctx.request, confirmed);
  }

  // ----- Eligibility, and fairness between combinations -----

  /** row is the quota row of some combination that the nested loops do not skip. */
  ghost predicate Eligible(row: QuotaRow, ctx: Context, benchmarks: seq<Benchmark>, clusters: seq<Cluster>,
      vendors: seq<string>)
  {
    exists b, c, v ::
      && b in benchmarks && c in clusters && v in vendors
      && c.SupportsBenchmark(b) && v in c.supportedVendors
      && row == ctx.RowFor(b, c, v)
  }

  lemma {:induction false} VendorRowsMembers(ctx: Context, b: Benchmark, c: Cluster, vendors: seq<string>)
    requires c.SupportsBenchmark(b)
    ensures forall row :: row in ctx.VendorRows(b, c, vendors) <==> Eligible(row, ctx, [b], [c], vendors)
  {
    if vendors != [] {
      VendorRowsMembers(ctx, b, c, vendors[..|vendors| - 1]);
      assert vendors == vendors[..|vendors| - 1] + [vendors[|vendors| - 1]];
    }
  }

  lemma {:induction false} ClusterRowsMembers(ctx: Context, b: Benchmark, clusters: seq<Cluster>, vendors: seq<string>)
    ensures forall row :: row in ctx.ClusterRows(b, clusters, vendors) <==> Eligible(row, ctx, [b], clusters, vendors)
  {
    if clusters != [] {
      var c := clusters[|clusters| - 1];
      ClusterRowsMembers(ctx, b, clusters[..|clusters| - 1], vendors);
      if c.SupportsBenchmark(b) { VendorRowsMembers(ctx, b, c, vendors); }
      assert clusters == clusters[..|clusters| - 1] + [c];
    }
  }

  /** The quota table holds exactly the eligible combinations. */
  lemma {:induction false} RowsAreTheEligibleCombinations(ctx: Context, benchmarks: seq<Benchmark>,
      clusters: seq<Cluster>, vendors: seq<string>)
    ensures forall row :: row in ctx.Rows(benchmarks, clusters, vendors) <==>
      Eligible(row, ctx, benchmarks, clusters, vendors)
  {
    if benchmarks != [] {
      RowsAreTheEligibleCombinations(ctx, benchmarks[..|benchmarks| - 1], clusters, vendors);
      ClusterRowsMembers(ctx, benchmarks[|benchmarks| - 1], clusters, vendors);
      assert benchmarks == benchmarks[..|benchmarks| - 1] + [benchmarks[|benchmarks| - 1]];
    }
  }

  /** Every task of a batch, the pause included, carries the requested priority; the pause is last and alone. */
  lemma BatchShape(ctx: Context, benchmarks: seq<Benchmark>, clusters: seq<Cluster>, vendors: seq<string>)
    ensures var rows := ctx.Rows(benchmarks, clusters, vendors); var batch := Batch(rows, ctx.request);
      && (forall t :: t in batch ==> t.priority == ctx.request.priority)
      && (forall t :: t in Planned(rows) ==> t.command.Orchestrate?)
      && (batch == [] <==> forall row :: row in rows ==> row.need == 0)
      && (batch != [] ==> (batch[|batch| - 1].command.ManualPause? <==> ctx.request.addPause))
  {
    var rows := ctx.Rows(benchmarks, clusters, vendors);
    RowsAreTheEligibleCombinations(ctx, benchmarks, clusters, vendors);
    ColumnsOrdered(Needs(rows), 0, MaxNeed(Needs(rows)));
    forall t | t in Planned(rows) ensures t.priority == ctx.request.priority && t.command.Orchestrate? {
      var i :| 0 <= i < |Planned(rows)| && Planned(rows)[i] == t;
      var slot := ColumnByColumn(Needs(rows))[i];
      assert slot in ColumnByColumn(Needs(rows));
      assert t == rows[slot.row].task && rows[slot.row] in rows;
    }
    PlannedIsEmpty(rows);
  }

  lemma PlannedIsEmpty(rows: seq<QuotaRow>)
    ensures Planned(rows) == [] <==> forall row :: row in rows ==> row.need == 0
  {
    var needs := Needs(rows);
    ColumnsOrdered(needs, 0, MaxNeed(needs));
    if Planned(rows) == [] {
      forall i | 0 <= i < |rows| ensures rows[i].need == 0 { QuotaMet(needs, i); }
    } else if forall row :: row in rows ==> row.need == 0 {
      var first := ColumnByColumn(needs)[0];
      QuotaMet(needs, first.row);
      assert rows[first.row] in rows;
    }
  }

  // ----- Fairness between combinations, however often each is selected -----

  function Is(task: NewTask): NewTask -> bool { (t: NewTask) => t == task }

  function RunsTask(task: NewTask): QuotaRow -> bool { (row: QuotaRow) => row.task == task }

  /** How many rows of the quota table run the task. */
  function Times(rows: seq<QuotaRow>, task: NewTask): nat { Count(rows, RunsTask(task)) }

  /** The copies of all rows before row n that run the task. */
  function CopiesOfTask(slots: seq<Slot>, rows: seq<QuotaRow>, task: NewTask, n: nat): nat
    requires n <= |rows|
  {
    if n == 0 then 0
    else CopiesOfTask(slots, rows, task, n - 1) + if rows[n - 1].task == task then CopiesOf(slots, n - 1) else 0
  }

  lemma {:induction false} CopiesOfTaskStep(slots: seq<Slot>, rows: seq<QuotaRow>, task: NewTask, n: nat)
    requires slots != [] && Within(slots, rows) && n <= |rows|
    ensures CopiesOfTask(slots, rows, task, n) == CopiesOfTask(slots[1..], rows, task, n)
      + if slots[0].row < n && rows[slots[0].row].task == task then 1 else 0
  {
    if n > 0 {
      CopiesOfTaskStep(slots, rows, task, n - 1);
    }
  }

  lemma {:induction false} NoSlotsNoCopies(rows: seq<QuotaRow>, task: NewTask, n: nat)
    requires n <= |rows|
    ensures CopiesOfTask([], rows, task, n) == 0
  {
    if n > 0 {
      NoSlotsNoCopies(rows, task, n - 1);
    }
  }

  lemma {:induction false} TasksAreCopies(slots: seq<Slot>, rows: seq<QuotaRow>, task: NewTask)
    requires Within(slots, rows)
    ensures Count(Tasks(slots, rows), Is(task)) == CopiesOfTask(slots, rows, task, |rows|)
  {
    if slots == [] {
      NoSlotsNoCopies(rows, task, |rows|);
    } else {
      TasksAreCopies(slots[1..], rows, task);
      CopiesOfTaskStep(slots, rows, task, |rows|);
      assert Tasks(slots, rows)[1..] == Tasks(slots[1..], rows);
      assert slots[0] in slots;
    }
  }

  lemma TimesStep(rows: seq<QuotaRow>, task: NewTask, n: nat)
    requires 0 < n <= |rows|
    ensures Times(rows[..n], task) == Times(rows[..n - 1], task) + if rows[n - 1].task == task then 1 else 0
  {
    assert rows[..n] == rows[..n - 1] + [rows[n - 1]];
    CountConcat(rows[..n - 1], [rows[n - 1]], RunsTask(task));
    assert [rows[n - 1]][1..] == [];
  }

  lemma OneMore(m: nat, n: nat)
    ensures (m + 1) * n == m * n + n
  {
  }

  /** Bounds on the copies of each row are bounds on the copies of the task, as often as it is in the table. */
  lemma {:induction false} CopiesBetween(slots: seq<Slot>, rows: seq<QuotaRow>, task: NewTask, n: nat, lo: nat, hi: nat)
    requires n <= |rows|
    requires forall r :: 0 <= r < n && rows[r].task == task ==> lo <= CopiesOf(slots, r) <= hi
    ensures Times(rows[..n], task) * lo <= CopiesOfTask(slots, rows, task, n) <= Times(rows[..n], task) * hi
  {
    if n > 0 {
      CopiesBetween(slots, rows, task, n - 1, lo, hi);
      TimesStep(rows, task, n);
      OneMore(Times(rows[..n - 1], task), lo);
      OneMore(Times(rows[..n - 1], task), hi);
    }
  }

  /** Rows for the same task need the same number of copies. */
  ghost predicate NeedsAgree(rows: seq<QuotaRow>)
  {
    forall q, r :: 0 <= q < |rows| && 0 <= r < |rows| && rows[q].task == rows[r].task ==> rows[q].need == rows[r].need
  }

  lemma RowsNeedsAgree(ctx: Context, benchmarks: seq<Benchmark>, clusters: seq<Cluster>, vendors: seq<string>)
    ensures NeedsAgree(ctx.Rows(benchmarks, clusters, vendors))
  {
    var rows := ctx.Rows(benchmarks, clusters, vendors);
    RowsAreTheEligibleCombinations(ctx, benchmarks, clusters, vendors);
    forall r | 0 <= r < |rows|
      ensures rows[r].task.command.Orchestrate?
      ensures var run := rows[r].task.command; rows[r].need == ctx.NeedOf(run.benchmark, run.vendor, run.cluster)
    {
      assert rows[r] in rows;
    }
  }

  lemma PrefixCopies(needs: seq<nat>, n: nat) returns (k: nat)
    requires n <= |ColumnByColumn(needs)|
    ensures forall row :: 0 <= row < |needs| ==>
      Min(needs[row], k) <= CopiesOf(ColumnByColumn(needs)[..n], row) <= Min(needs[row], k + 1)
  {
    var slots := ColumnByColumn(needs);
    k := PrefixIsWholeColumnsAndAPart(needs, 0, MaxNeed(needs), n);
    forall row | 0 <= row < |needs| ensures CopiesOf(slots[..n], row) <= needs[row] {
      QuotaMet(needs, row);
      assert slots == slots[..n] + slots[n..];
      CountConcat(slots[..n], slots[n..], OfRow(row));
    }
  }

  /** The prefix holds k whole rounds and part of the next one, each round as often as the combination was selected. */
  ghost predicate RoundsOf(rows: seq<QuotaRow>, prefix: seq<NewTask>, k: nat)
  {
    forall row :: row in rows ==>
      Times(rows, row.task) * Min(row.need, k) <= Count(prefix, Is(row.task))
        <= Times(rows, row.task) * Min(row.need, k + 1)
  }

  lemma PrefixTasks(rows: seq<QuotaRow>, n: nat, k: nat, row: QuotaRow)
    requires NeedsAgree(rows) && n <= |Planned(rows)| && row in rows
    requires forall r :: 0 <= r < |rows| ==>
      Min(rows[r].need, k) <= CopiesOf(ColumnByColumn(Needs(rows))[..n], r) <= Min(rows[r].need, k + 1)
    ensures Times(rows, row.task) * Min(row.need, k) <= Count(Planned(rows)[..n], Is(row.task))
      <= Times(rows, row.task) * Min(row.need, k + 1)
  {
    var slots := ColumnByColumn(Needs(rows));
    ColumnsOrdered(Needs(rows), 0, MaxNeed(Needs(rows)));
    assert Within(slots[..n], rows) && Planned(rows)[..n] == Tasks(slots[..n], rows);
    TasksAreCopies(slots[..n], rows, row.task);
    CopiesBetween(slots[..n], rows, row.task, |rows|, Min(row.need, k), Min(row.need, k + 1));
    assert rows[..|rows|] == rows;
  }

  /** Fairness: wherever the batch is interrupted, it has been through k whole rounds and part of the next one; a
      combination that was selected m times has had between m * min(need, k) and m * min(need, k + 1) runs. */
  lemma BatchIsFair(ctx: Context, benchmarks: seq<Benchmark>, clusters: seq<Cluster>, vendors: seq<string>, n: nat)
      returns (k: nat)
    requires n <= |Planned(ctx.Rows(benchmarks, clusters, vendors))|
    ensures RoundsOf(ctx.Rows(benchmarks, clusters, vendors), Planned(ctx.Rows(benchmarks, clusters, vendors))[..n], k)
  {
    var rows := ctx.Rows(benchmarks, clusters, vendors);
    RowsNeedsAgree(ctx, benchmarks, clusters, vendors);
    k := PrefixCopies(Needs(rows), n);
    forall row | row in rows
      ensures Times(rows, row.task) * Min(row.need, k) <= Count(Planned(rows)[..n], Is(row.task))
        <= Times(rows, row.task) * Min(row.need, k + 1)
    {
      PrefixTasks(rows, n, k, row);
    }
  }

  /** The whole batch gives every combination its quota, times the number of its selections. */
  lemma BatchMeetsQuotas(ctx: Context, benchmarks: seq<Benchmark>, clusters: seq<Cluster>, vendors: seq<string>,
      row: QuotaRow)
    requires row in ctx.Rows(benchmarks, clusters, vendors)
    ensures var rows := ctx.Rows(benchmarks, clusters, vendors);
      Count(Planned(rows), Is(row.task)) == Times(rows, row.task) * row.need
  {
    var rows := ctx.Rows(benchmarks, clusters, vendors);
    var slots := ColumnByColumn(Needs(rows));
    RowsNeedsAgree(ctx, benchmarks, clusters, vendors);
    ColumnsOrdered(Needs(rows), 0, MaxNeed(Needs(rows)));
    TasksAreCopies(slots, rows, row.task);
    forall r | 0 <= r < |rows| && rows[r].task == row.task
      ensures CopiesOf(slots, r) == row.need
    {
      QuotaMet(Needs(rows), r);
    }
    CopiesBetween(slots, rows, row.task, |rows|, row.need, row.need);
    assert rows[..|rows|] == rows;
  }

  /** Between combinations selected once: wherever the batch is interrupted, the one has had its quota or at most one
      run fewer than the other. */
  lemma SingleSelectionsAreFair(ctx: Context, benchmarks: seq<Benchmark>, clusters: seq<Cluster>, vendors: seq<string>,
      n: nat, a: QuotaRow, b: QuotaRow)
    requires n <= |Planned(ctx.Rows(benchmarks, clusters, vendors))|
    requires a in ctx.Rows(benchmarks, clusters, vendors) && b in ctx.Rows(benchmarks, clusters, vendors)
    requires Times(ctx.Rows(benchmarks, clusters, vendors), a.task)
      == Times(ctx.Rows(benchmarks, clusters, vendors), b.task) == 1
    ensures var prefix := Planned(ctx.Rows(benchmarks, clusters, vendors))[..n];
      Count(prefix, Is(a.task)) >= Min(a.need, Count(prefix, Is(b.task)) - 1)
  {
    var k := BatchIsFair(ctx, benchmarks, clusters, vendors, n);
    var prefix := Planned(ctx.Rows(benchmarks, clusters, vendors))[..n];
    assert 1 * Min(a.need, k) <= Count(prefix, Is(a.task));
    assert Count(prefix, Is(b.task)) <= 1 * Min(b.need, k + 1);
  }

  // ----- How often a combination is selected -----

  function IsBenchmark(b: Benchmark): Benchmark -> bool { (x: Benchmark) => x == b }

  function IsCluster(c: Cluster): Cluster -> bool { (x: Cluster) => x == c }

  function IsVendor(v: string): string -> bool { (x: string) => x == v }

  lemma {:induction false} VendorTimes(ctx: Context, b: Benchmark, c: Cluster, vendors: seq<string>, task: NewTask,
      v: string)
    requires task.command.Orchestrate? && task.command.vendor == v
    ensures task == ctx.TaskFor(b, c, v) && v in c.supportedVendors ==>
      Times(ctx.VendorRows(b, c, vendors), task) == Count(vendors, IsVendor(v))
    ensures b.id != task.command.benchmark || c.id != task.command.cluster ==>
      Times(ctx.VendorRows(b, c, vendors), task) == 0
  {
    if vendors != [] {
      var last, before := vendors[|vendors| - 1], vendors[..|vendors| - 1];
      VendorTimes(ctx, b, c, before, task, v);
      var added := if last in c.supportedVendors then [ctx.RowFor(b, c, last)] else [];
      assert vendors == before + [last];
      CountConcat(before, [last], IsVendor(v));
      CountConcat(ctx.VendorRows(b, c, before), added, RunsTask(task));
      assert [last][1..] == [] && (added != [] ==> added[1..] == []);
    }
  }

  /** Clusters and benchmarks are registered under unique ids. */
  ghost predicate Registered(benchmarks: seq<Benchmark>, clusters: seq<Cluster>, b: Benchmark, c: Cluster)
  {
    && (forall x :: x in benchmarks && x.id == b.id ==> x == b)
    && (forall x :: x in clusters && x.id == c.id ==> x == c)
  }

  lemma {:induction false} ClusterTimes(ctx: Context, x: Benchmark, clusters: seq<Cluster>, vendors: seq<string>,
      c: Cluster, task: NewTask, each: nat)
    requires forall y :: y in clusters && y.SupportsBenchmark(x) ==>
      Times(ctx.VendorRows(x, y, vendors), task) == if y == c then each else 0
    requires c.SupportsBenchmark(x) || each == 0
    ensures Times(ctx.ClusterRows(x, clusters, vendors), task) == Count(clusters, IsCluster(c)) * each
  {
    if clusters != [] {
      var last, before := clusters[|clusters| - 1], clusters[..|clusters| - 1];
      ClusterTimes(ctx, x, before, vendors, c, task, each);
      var added := if last.SupportsBenchmark(x) then ctx.VendorRows(x, last, vendors) else [];
      assert clusters == before + [last];
      CountConcat(before, [last], IsCluster(c));
      CountConcat(ctx.ClusterRows(x, before, vendors), added, RunsTask(task));
      assert [last][1..] == [] && last in clusters;
      if last == c { OneMore(Count(before, IsCluster(c)), each); }
    }
  }

  lemma {:induction false} BenchmarkTimes(ctx: Context, benchmarks: seq<Benchmark>, clusters: seq<Cluster>,
      vendors: seq<string>, b: Benchmark, task: NewTask, each: nat)
    requires forall x :: x in benchmarks ==>
      Times(ctx.ClusterRows(x, clusters, vendors), task) == if x == b then each else 0
    ensures Times(ctx.Rows(benchmarks, clusters, vendors), task) == Count(benchmarks, IsBenchmark(b)) * each
  {
    if benchmarks != [] {
      var last, before := benchmarks[|benchmarks| - 1], benchmarks[..|benchmarks| - 1];
      BenchmarkTimes(ctx, before, clusters, vendors, b, task, each);
      assert benchmarks == before + [last];
      CountConcat(before, [last], IsBenchmark(b));
      CountConcat(ctx.Rows(before, clusters, vendors), ctx.ClusterRows(last, clusters, vendors), RunsTask(task));
      assert [last][1..] == [] && last in benchmarks;
      if last == b { OneMore(Count(before, IsBenchmark(b)), each); }
    }
  }

  /** A combination is in the table once for every way in which it was selected: repeated options multiply its runs. */
  lemma SelectionsMultiply(ctx: Context, benchmarks: seq<Benchmark>, clusters: seq<Cluster>, vendors: seq<string>,
      b: Benchmark, c: Cluster, v: string)
    requires c.SupportsBenchmark(b) && v in c.supportedVendors && Registered(benchmarks, clusters, b, c)
    ensures Times(ctx.Rows(benchmarks, clusters, vendors), ctx.TaskFor(b, c, v))
         == Count(benchmarks, IsBenchmark(b)) * (Count(clusters, IsCluster(c)) * Count(vendors, IsVendor(v)))
  {
    var task, each := ctx.TaskFor(b, c, v), Count(clusters, IsCluster(c)) * Count(vendors, IsVendor(v));
    forall x | x in benchmarks
      ensures Times(ctx.ClusterRows(x, clusters, vendors), task) == if x == b then each else 0
    {
      forall y | y in clusters
        ensures Times(ctx.VendorRows(x, y, vendors), task)
             == if x == b && y == c then Count(vendors, IsVendor(v)) else 0
      {
        VendorTimes(ctx, x, y, vendors, task, v);
      }
      ClusterTimes(ctx, x, clusters, vendors, c, task, if x == b then Count(vendors, IsVendor(v)) else 0);
    }
    BenchmarkTimes(ctx, benchmarks, clusters, vendors, b, task, each);
  }

  // ----- Which runs count towards the target -----

  /** The quota of an eligible combination is the target less its finished runs exactly when its vendor is analysed, or
      there is nothing to credit: runs of other vendors never count. */
  lemma FinishedRunsCountIff(ctx: Context, b: Benchmark, c: Cluster, v: string, target: int)
    requires c.SupportsBenchmark(b) && v in c.supportedVendors && ctx.request.targetCount == Some(target)
    ensures var finished := Count(ctx.profiles, RunOf(b.id, v, c.id));
      ctx.Need(b, c, v) == Max(target - finished, 0) <==> v in ctx.analysedVendors || finished == 0 || target <= 0
  {
    var all, counted := RunOf(b.id, v, c.id), CountedRunOf(b.id, v, c.id, ctx.analysedVendors);
    CountAligned(ctx.profiles, ctx.profiles, counted, all);
    if v in ctx.analysedVendors {
      CountAligned(ctx.profiles, ctx.profiles, all, counted);
    } else {
      NothingCounted(ctx.profiles, counted);
    }
  }

  lemma {:induction false} NothingCounted<T(!new)>(s: seq<T>, p: T -> bool)
    requires forall x :: !p(x)
    ensures Count(s, p) == 0
  {
    if s != [] {
      NothingCounted(s[1..], p);
    }
  }
}
