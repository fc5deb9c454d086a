/** The persistent task queue: ordering, the serial run loop, crash and resume, and completion estimates. */
module TaskQueue {
  import opened Sequences
  import Planning
  import Proc = ProcessInvocation

  /** One stored row. The key is the row's position: AutoField keys grow and rows are never removed here. */
  datatype Task = Task(
    id: nat, command: Planning.Command, priority: int, paused: bool, estimatedTime: int,
    success: Option<bool>, start: Option<int>, completion: Option<int>)
  {
    predicate Running() { start.Some? }

    predicate Pending() { completion.None? && !paused }

    /** Started by some scheduler that never recorded an outcome. */
    predicate Interrupted() { start.Some? && completion.None? }

    function EstimatedTimeRemaining(now: int): int {
      if !Running() then estimatedTime else Max(0, estimatedTime - (now - start.value))
    }
  }

  type Rows = seq<Task>

  ghost predicate Keyed(rows: Rows)
  {
    forall i :: 0 <= i < |rows| ==> rows[i].id == i
  }

  const RUNNING_PRIORITY := 999

  predicate IsPending(t: Task) { t.Pending() }

  /** Higher priority first, then the older key. */
  predicate NoLater(a: Task, b: Task) { a.priority > b.priority || (a.priority == b.priority && a.id <= b.id) }

  function PendingTasks(rows: Rows): Rows { Sort(Filter(rows, IsPending), NoLater) }

  function NextTask(rows: Rows): Option<Task>
  {
    var pending := PendingTasks(rows);
    if pending == [] then None else Some(pending[0])
  }

  lemma PendingTasksMembers(rows: Rows)
    ensures SortedBy(PendingTasks(rows), NoLater)
    ensures forall t :: t in PendingTasks(rows) <==> t in rows && t.Pending()
    ensures multiset(PendingTasks(rows)) == multiset(Filter(rows, IsPending))
  {
    SortIsSorted(Filter(rows, IsPending), NoLater);
    SortKeepsElements(Filter(rows, IsPending), NoLater);
    FilterMembers(rows, IsPending);
  }

  /** The next task is the pending task that no other pending task outranks. */
  lemma NextTaskIsTheForemost(rows: Rows, t: Task)
    requires Keyed(rows)
    ensures NextTask(rows) == Some(t) <==>
      t in rows && t.Pending() && forall other :: other in rows && other.Pending() ==> NoLater(t, other)
    ensures NextTask(rows) == None <==> forall other :: other in rows ==> !other.Pending()
  {
    PendingTasksMembers(rows);
    var pending := PendingTasks(rows);
    if pending != [] {
      assert pending[0] in pending;
      forall other | other in pending ensures NoLater(pending[0], other) {
        var i :| 0 <= i < |pending| && pending[i] == other;
      }
    }
  }

  // ----- Transitions of a row, each saved whole -----

  function Started(t: Task, now: int): Task { t.(start := Some(now), priority := RUNNING_PRIORITY) }

  function Finished(t: Task, success: bool, now: int): Task { t.(success := Some(success), completion := Some(now)) }

  function SaveRow(rows: Rows, t: Task): Rows
    requires t.id < |rows|
  {
    rows[t.id := t]
  }

  /** bulk_create: the planned tasks in list order, under the next keys. */
  function Created(rows: Rows, tasks: seq<Planning.NewTask>): (r: Rows)
    ensures Keyed(rows) ==> Keyed(r)
  {
    rows + seq(|tasks|, i requires 0 <= i < |tasks| =>
      Task(|rows| + i, tasks[i].command, tasks[i].priority, false, tasks[i].estimatedTime, None, None, None))
  }

  // ----- How one row's change shows in the ordered queue -----

  function PendingOf(t: Task): multiset<Task> { if t.Pending() then multiset{t} else multiset{} }

  lemma FilterAround(before: Rows, t: Task, after: Rows)
    ensures multiset(Filter(before + [t] + after, IsPending))
         == multiset(Filter(before, IsPending)) + PendingOf(t) + multiset(Filter(after, IsPending))
  {
    FilterConcat(before + [t], after, IsPending);
    FilterConcat(before, [t], IsPending);
    assert [t][1..] == [];
  }

  lemma FilterUpdate(rows: Rows, i: nat, t: Task)
    requires i < |rows|
    ensures multiset(Filter(rows[i := t], IsPending))
      == multiset(Filter(rows, IsPending)) - PendingOf(rows[i]) + PendingOf(t)
  {
    var before, after := rows[..i], rows[i + 1..];
    assert rows == before + [rows[i]] + after && rows[i := t] == before + [t] + after;
    FilterAround(before, rows[i], after);
    FilterAround(before, t, after);
  }

  lemma OnlyOneArrangement(rows: Rows, arranged: Rows)
    requires Keyed(rows) && SortedBy(arranged, NoLater)
    requires multiset(arranged) == multiset(Filter(rows, IsPending))
    ensures PendingTasks(rows) == arranged
  {
    PendingTasksMembers(rows);
    SortedArrangementIsUnique(PendingTasks(rows), arranged, NoLater);
  }

  lemma ForemostIsStored(rows: Rows)
    requires Keyed(rows) && PendingTasks(rows) != []
    ensures var t := PendingTasks(rows)[0]; t.id < |rows| && rows[t.id] == t && t.Pending()
  {
    PendingTasksMembers(rows);
    assert PendingTasks(rows)[0] in PendingTasks(rows);
  }

  /** Saving a new version of the foremost task replaces just that task among the pending ones. */
  lemma ForemostReplaced(rows: Rows, t: Task)
    requires Keyed(rows) && PendingTasks(rows) != [] && t.id == PendingTasks(rows)[0].id < |rows|
    ensures multiset(Filter(SaveRow(rows, t), IsPending)) == multiset(PendingTasks(rows)[1..]) + PendingOf(t)
  {
    ForemostIsStored(rows);
    FilterUpdate(rows, t.id, t);
    TailElements(PendingTasks(rows));
    SortKeepsElements(Filter(rows, IsPending), NoLater);
  }

  /** Completing the foremost task leaves the others in their order. */
  lemma FinishingAdvancesTheQueue(rows: Rows, done: Task)
    requires Keyed(rows) && NextTask(rows).Some? && done.id == NextTask(rows).value.id && done.completion.Some?
    ensures done.id < |rows| && PendingTasks(SaveRow(rows, done)) == PendingTasks(rows)[1..]
  {
    ForemostIsStored(rows);
    ForemostReplaced(rows, done);
    SortIsSorted(Filter(rows, IsPending), NoLater);
    OnlyOneArrangement(SaveRow(rows, done), PendingTasks(rows)[1..]);
  }

  lemma PrependForemost(t: Task, rest: Rows)
    requires SortedBy(rest, NoLater) && (rest == [] || NoLater(t, rest[0]))
    ensures SortedBy([t] + rest, NoLater) && multiset([t] + rest) == multiset(rest) + multiset{t}
  {
  }

  lemma PromotionOrder(rows: Rows, t: Task)
    requires Keyed(rows) && NextTask(rows).Some? && t.id == NextTask(rows).value.id < |rows| && t.Pending()
    requires |PendingTasks(rows)| == 1 || NoLater(t, PendingTasks(rows)[1])
    ensures PendingTasks(SaveRow(rows, t)) == [t] + PendingTasks(rows)[1..]
  {
    var rest := PendingTasks(rows)[1..];
    SortIsSorted(Filter(rows, IsPending), NoLater);
    PrependForemost(t, rest);
    ForemostReplaced(rows, t);
    OnlyOneArrangement(SaveRow(rows, t), [t] + rest);
  }

  /** Promoting the foremost task keeps the whole order exactly when it still ranks first at 999. */
  lemma PromotionKeepsOrder(rows: Rows, now: int)
    requires Keyed(rows) && NextTask(rows).Some?
    ensures var pending := PendingTasks(rows); var t := Started(pending[0], now);
      && t.id < |rows|
      && (PendingTasks(SaveRow(rows, t)) == [t] + pending[1..] <==> |pending| == 1 || NoLater(t, pending[1]))
      && (pending[0].priority <= RUNNING_PRIORITY ==> PendingTasks(SaveRow(rows, t)) == [t] + pending[1..])
  {
    ForemostIsStored(rows);
    SortIsSorted(Filter(rows, IsPending), NoLater);
    var pending := PendingTasks(rows);
    var t := Started(pending[0], now);
    if |pending| == 1 || NoLater(t, pending[1]) {
      PromotionOrder(rows, t);
    } else {
      SortIsSorted(Filter(SaveRow(rows, t), IsPending), NoLater);
      assert !SortedBy([t] + pending[1..], NoLater) by {
        assert !NoLater(([t] + pending[1..])[0], ([t] + pending[1..])[1]);
      }
    }
  }

  // ----- The queue and a task's run as the source updates them -----

  class Database {
    var rows: Rows

    constructor ()
      ensures rows == []
    {
      rows := [];
    }
  }

  /** How the command of a started task ends: exit code accepted, InvocationFailedException, or anything
      else that escapes run() and takes the scheduler down (a plain TimeoutError, an interrupt, a power cut). */
  datatype Outcome = Succeeded | Failed | Aborted

  datatype Attempt = Attempt(outcome: Outcome, startedAt: int, endedAt: int)

  function RunOnce(rows: Rows, t: Task, attempt: Attempt): (r: Rows)
    requires t.id < |rows|
    ensures |r| == |rows|
  {
    var started := Started(t, attempt.startedAt);
    var saved := SaveRow(rows, started);
    match attempt.outcome
    case Aborted => saved
    case Succeeded => SaveRow(saved, Finished(started, true, attempt.endedAt))
    case Failed => SaveRow(saved, Finished(started, false, attempt.endedAt))
  }

  /** A ScheduleTask object in memory, loaded from one row. */
  class ScheduleTask {
    const id: nat
    const command: Planning.Command
    const paused: bool
    const estimatedTime: int
    var priority: int
    var success: Option<bool>
    var start: Option<int>
    var completion: Option<int>

    function Row(): Task
      reads this
    {
      Task(id, command, priority, paused, estimatedTime, success, start, completion)
    }

    constructor (row: Task)
      ensures Row() == row
    {
      id, command, paused, estimatedTime := row.id, row.command, row.paused, row.estimatedTime;
      priority, success, start, completion := row.priority, row.success, row.start, row.completion;
    }

    method Save(db: Database)
      requires id < |db.rows|
      modifies db
      ensures db.rows == SaveRow(old(db.rows), Row())
    {
      db.rows := db.rows[id := Row()];
    }

    method Run(db: Database, attempt: Attempt) returns (aborted: bool)
      requires id < |db.rows|
      modifies this, db
      ensures aborted == attempt.outcome.Aborted?
      ensures db.rows == RunOnce(old(db.rows), old(Row()), attempt)
      ensures |db.rows| == |old(db.rows)|
    {
      start := Some(attempt.startedAt);
      priority := RUNNING_PRIORITY;
      Save(db);
      match attempt.outcome {
        case Aborted => return true;
        case Succeeded => success := Some(true);
        case Failed => success := Some(false);
      }
      completion := Some(attempt.endedAt);
      Save(db);
      return false;
    }
  }

  /** The rows after the loop has used these attempts, or after the attempt that took it down. */
  function RunLoop(rows: Rows, attempts: seq<Attempt>): Rows
    requires forall t :: t in rows ==> t.id < |rows|
    decreases |attempts|
  {
    if attempts == [] then rows else
      match NextTask(rows)
      case None => RunLoop(rows, attempts[1..])
      case Some(t) =>
        NextTaskIsStored(rows);
        var after := RunOnce(rows, t, attempts[0]);
        if attempts[0].outcome.Aborted? then after else RunLoop(after, attempts[1..])
  }

  lemma NextTaskIsStored(rows: Rows)
    ensures NextTask(rows).Some? ==> NextTask(rows).value in rows && NextTask(rows).value.Pending()
  {
    PendingTasksMembers(rows);
    if PendingTasks(rows) != [] { assert PendingTasks(rows)[0] in PendingTasks(rows); }
  }

  /** The scheduler's endless loop, observed for the given number of polls. */
  method RunScheduler(db: Database, attempts: seq<Attempt>)
    requires forall t :: t in db.rows ==> t.id < |db.rows|
    modifies db
    ensures db.rows == RunLoop(old(db.rows), attempts)
  {
    var i := 0;
    while i < |attempts|
      invariant 0 <= i <= |attempts|
      invariant forall t :: t in db.rows ==> t.id < |db.rows|
      invariant RunLoop(old(db.rows), attempts) == RunLoop(db.rows, attempts[i..])
    {
      var next := NextTask(db.rows);
      assert attempts[i..][1..] == attempts[i + 1..];
      if next.Some? {
        NextTaskIsStored(db.rows);
        var task := new ScheduleTask(next.value);
        var aborted := task.Run(db, attempts[i]);
        if aborted {
          return;
        }
      }
      i := i + 1;
    }
  }

  // ----- The loop serves the queue in order; completion estimates -----

  /** The pending tasks ended as these attempts say, in this order. */
  ghost predicate EndedAs(after: Rows, pending: Rows, attempts: seq<Attempt>)
  {
    && |attempts| == |pending|
    && forall i :: 0 <= i < |pending| ==>
         && pending[i].id < |after|
         && after[pending[i].id].completion == Some(attempts[i].endedAt)
         && after[pending[i].id].success == Some(attempts[i].outcome.Succeeded?)
  }

  ghost predicate OthersKept(rows: Rows, after: Rows)
  {
    |after| == |rows| && forall id :: 0 <= id < |rows| && !rows[id].Pending() ==> after[id] == rows[id]
  }

  lemma ServeFirst(rows: Rows, attempt: Attempt)
    requires Keyed(rows) && NextTask(rows).Some? && !attempt.outcome.Aborted?
    ensures var t := PendingTasks(rows)[0];
      && t.id < |rows| && rows[t.id] == t && t.Pending()
      && var next := RunOnce(rows, t, attempt);
      && Keyed(next) && OthersKept(rows, next)
      && PendingTasks(next) == PendingTasks(rows)[1..]
      && !next[t.id].Pending() && EndedAs(next, [t], [attempt])
  {
    ForemostIsStored(rows);
    var t := PendingTasks(rows)[0];
    var done := Finished(Started(t, attempt.startedAt), attempt.outcome.Succeeded?, attempt.endedAt);
    assert RunOnce(rows, t, attempt) == SaveRow(rows, done);
    FinishingAdvancesTheQueue(rows, done);
  }

  /** Without aborts the i-th poll completes the i-th pending task and touches nothing else. */
  lemma {:induction false} LoopServesInOrder(rows: Rows, attempts: seq<Attempt>)
    requires Keyed(rows) && |attempts| == |PendingTasks(rows)|
    requires forall i :: 0 <= i < |attempts| ==> !attempts[i].outcome.Aborted?
    ensures PendingTasks(RunLoop(rows, attempts)) == []
    ensures EndedAs(RunLoop(rows, attempts), PendingTasks(rows), attempts)
    ensures OthersKept(rows, RunLoop(rows, attempts))
    decreases |attempts|
  {
    var pending := PendingTasks(rows);
    if pending != [] {
      ServeFirst(rows, attempts[0]);
      var next := RunOnce(rows, pending[0], attempts[0]);
      LoopServesInOrder(next, attempts[1..]);
      assert RunLoop(rows, attempts) == RunLoop(next, attempts[1..]);
      assert OthersKept(next, RunLoop(rows, attempts));
      assert forall i :: 0 < i < |pending| ==> pending[i] == PendingTasks(next)[i - 1];
    }
  }

  /** What info prints for each pending task, in order. */
  function Etas(pending: Rows, eta: int, now: int): seq<int>
  {
    if pending == [] then [] else
      var next := eta + pending[0].EstimatedTimeRemaining(now);
      [next] + Etas(pending[1..], next, now)
  }

  method Info(db: Database, now: int) returns (etas: seq<int>)
    ensures etas == Etas(PendingTasks(db.rows), now, now)
  {
    var pendingTasks := PendingTasks(db.rows);
    etas := [];
    var eta := now;
    for i := 0 to |pendingTasks|
      invariant Etas(pendingTasks, now, now) == etas + Etas(pendingTasks[i..], eta, now)
    {
      var remainingTime := pendingTasks[i].EstimatedTimeRemaining(now);
      assert pendingTasks[i..][1..] == pendingTasks[i + 1..];
      eta := eta + remainingTime;
      etas := etas + [eta];
    }
  }

  /** The serial loop on a simulated clock: every poll runs the next task for its given duration. */
  function Simulate(rows: Rows, clock: int, durations: seq<int>, polls: nat): Rows
    requires |durations| == |rows| && forall t :: t in rows ==> t.id < |rows|
    decreases polls
  {
    if polls == 0 then rows else
      match NextTask(rows)
      case None => rows
      case Some(t) =>
        NextTaskIsStored(rows);
        var end := clock + durations[t.id];
        Simulate(RunOnce(rows, t, Attempt(Succeeded, clock, end)), end, durations, polls - 1)
  }

  function Durations(rows: Rows, now: int): (d: seq<int>)
    ensures |d| == |rows|
  {
    seq(|rows|, i requires 0 <= i < |rows| => rows[i].EstimatedTimeRemaining(now))
  }

  function Timed(pending: Rows, clock: int, now: int): seq<Attempt>
  {
    if pending == [] then [] else
      var end := clock + pending[0].EstimatedTimeRemaining(now);
      [Attempt(Succeeded, clock, end)] + Timed(pending[1..], end, now)
  }

  lemma {:induction false} TimedEndsAtEtas(pending: Rows, clock: int, now: int)
    ensures |Timed(pending, clock, now)| == |Etas(pending, clock, now)| == |pending|
    ensures forall i :: 0 <= i < |pending| ==>
      Timed(pending, clock, now)[i].outcome == Succeeded
        && Timed(pending, clock, now)[i].endedAt == Etas(pending, clock, now)[i]
  {
    if pending != [] {
      TimedEndsAtEtas(pending[1..], clock + pending[0].EstimatedTimeRemaining(now), now);
    }
  }

  lemma {:induction false} SimulationIsTimedLoop(rows: Rows, clock: int, now: int, durations: seq<int>)
    requires Keyed(rows) && |durations| == |rows|
    requires forall id :: 0 <= id < |rows| && rows[id].Pending() ==>
      durations[id] == rows[id].EstimatedTimeRemaining(now)
    ensures Simulate(rows, clock, durations, |PendingTasks(rows)|)
      == RunLoop(rows, Timed(PendingTasks(rows), clock, now))
    decreases |PendingTasks(rows)|
  {
    var pending := PendingTasks(rows);
    if pending != [] {
      var attempt := Timed(pending, clock, now)[0];
      ServeFirst(rows, attempt);
      var next := RunOnce(rows, pending[0], attempt);
      forall id | 0 <= id < |next| && next[id].Pending() ensures next[id] == rows[id] {}
      SimulationIsTimedLoop(next, attempt.endedAt, now, durations);
      assert Timed(pending, clock, now)[1..] == Timed(pending[1..], attempt.endedAt, now);
    }
  }

  /** Every printed estimate is the instant at which the serial loop would complete that task if each
      task took exactly the time that info assumes for it. */
  lemma EtasAreFinishTimes(rows: Rows, now: int)
    requires Keyed(rows)
    ensures var pending, after := PendingTasks(rows), Simulate(rows, now, Durations(rows, now), |PendingTasks(rows)|);
      && |after| == |rows| && PendingTasks(after) == []
      && |Etas(pending, now, now)| == |pending|
      && forall i :: 0 <= i < |pending| ==>
           pending[i].id < |rows| && after[pending[i].id].completion == Some(Etas(pending, now, now)[i])
  {
    TimedEndsAtEtas(PendingTasks(rows), now, now);
    SimulationIsTimedLoop(rows, now, now, Durations(rows, now));
    LoopServesInOrder(rows, Timed(PendingTasks(rows), now, now));
  }

  // ----- Whole histories: queueing, starting, completing, crashing, editing -----

  /** The stored rows, the task held by a live scheduler, and the keys completed so far. */
  datatype System = System(rows: Rows, running: Option<Task>, log: seq<nat>)

  datatype Event =
    | Enqueue(tasks: seq<Planning.NewTask>)
    | Begin(now: int)
    | Complete(success: bool, now: int)
    | Crash
    | Edit(id: nat, priority: int, paused: bool)

  /** The effect of an event; an event that cannot occur in this state has none. */
  function Step(s: System, e: Event): System
  {
    match e
    case Enqueue(tasks) => s.(rows := Created(s.rows, tasks))
    case Begin(now) =>
      var next := NextTask(s.rows);
      if s.running.None? && next.Some? && next.value.id < |s.rows|
      then s.(rows := SaveRow(s.rows, Started(next.value, now)), running := Some(Started(next.value, now)))
      else s
    case Complete(success, now) =>
      if s.running.Some? && s.running.value.id < |s.rows|
      then System(SaveRow(s.rows, Finished(s.running.value, success, now)), None, s.log + [s.running.value.id])
      else s
    case Crash => s.(running := None)
    case Edit(id, priority, paused) =>
      if id < |s.rows| then s.(rows := s.rows[id := s.rows[id].(priority := priority, paused := paused)]) else s
  }

  function Execute(s: System, events: seq<Event>): System
    decreases |events|
  {
    if events == [] then s else Execute(Step(s, events[0]), events[1..])
  }

  /** A task's run is Begin followed by Complete, or by Crash when it aborts. */
  lemma RunIsTwoSteps(s: System, attempt: Attempt)
    requires Keyed(s.rows) && s.running.None? && NextTask(s.rows).Some?
    ensures NextTask(s.rows).value.id < |s.rows|
    ensures RunOnce(s.rows, NextTask(s.rows).value, attempt) ==
      Step(Step(s, Begin(attempt.startedAt)), EndOf(attempt)).rows
  {
    NextTaskIsStored(s.rows);
  }

  function EndOf(a: Attempt): Event
  {
    if a.outcome.Aborted? then Crash else Complete(a.outcome.Succeeded?, a.endedAt)
  }

  /** The events of the scheduler's polls, up to the attempt that takes it down. Polling an empty queue is no event. */
  function EventsOf(rows: Rows, attempts: seq<Attempt>): seq<Event>
    requires forall t :: t in rows ==> t.id < |rows|
    decreases |attempts|
  {
    if attempts == [] then [] else
      match NextTask(rows)
      case None => EventsOf(rows, attempts[1..])
      case Some(t) =>
        NextTaskIsStored(rows);
        var a := attempts[0];
        [Begin(a.startedAt)] +
          ([EndOf(a)] + if a.outcome.Aborted? then [] else EventsOf(RunOnce(rows, t, a), attempts[1..]))
  }

  lemma ExecuteTwo(s: System, e: Event, f: Event, events: seq<Event>)
    ensures Execute(s, [e] + ([f] + events)) == Execute(Step(Step(s, e), f), events)
  {
    ExecuteFirst(s, e, [f] + events);
    ExecuteFirst(Step(s, e), f, events);
  }

  /** The scheduler's loop is one of the histories, so what holds for all of them holds for it. */
  lemma {:induction false} LoopIsAHistory(rows: Rows, log: seq<nat>, attempts: seq<Attempt>)
    requires Keyed(rows)
    ensures RunLoop(rows, attempts) == Execute(System(rows, None, log), EventsOf(rows, attempts)).rows
    decreases |attempts|
  {
    if attempts != [] {
      var s, a := System(rows, None, log), attempts[0];
      if NextTask(rows).None? {
        LoopIsAHistory(rows, log, attempts[1..]);
      } else {
        NextTaskIsStored(rows);
        RunIsTwoSteps(s, a);
        var after := Step(Step(s, Begin(a.startedAt)), EndOf(a));
        assert after.rows == RunOnce(rows, NextTask(rows).value, a) && Keyed(after.rows) && after.running == None;
        if a.outcome.Aborted? {
          ExecuteTwo(s, Begin(a.startedAt), EndOf(a), []);
        } else {
          ExecuteTwo(s, Begin(a.startedAt), EndOf(a), EventsOf(after.rows, attempts[1..]));
          LoopIsAHistory(after.rows, after.log, attempts[1..]);
        }
      }
    }
  }

  // ----- Crash and resume -----

  predicate Consistent(t: Task)
  {
    && t.success.Some? == t.completion.Some?
    && (t.completion.Some? ==> t.start.Some?)
    && (t.start.None? ==> t.priority < RUNNING_PRIORITY)
    && (t.Interrupted() ==> t.priority == RUNNING_PRIORITY && !t.paused)
  }

  ghost predicate Resumable(s: System)
  {
    && Keyed(s.rows)
    && (forall i :: 0 <= i < |s.rows| ==> Consistent(s.rows[i]))
    && (forall i, j :: 0 <= i < |s.rows| && 0 <= j < |s.rows| && s.rows[i].Interrupted() && s.rows[j].Interrupted() ==>
      i == j)
    && (s.running.Some? ==>
          var t := s.running.value; t.id < |s.rows| && s.rows[t.id] == t && t.Interrupted())
  }

  /** Queued and edited priorities stay below 999 and the started task is left alone. */
  predicate Legal(s: System, e: Event)
  {
    match e
    case Enqueue(tasks) => forall t :: t in tasks ==> t.priority < RUNNING_PRIORITY
    case Edit(id, priority, _) => priority < RUNNING_PRIORITY && (id < |s.rows| ==> !s.rows[id].Interrupted())
    case _ => true
  }

  predicate LegalRun(s: System, events: seq<Event>)
    decreases |events|
  {
    events == [] || (Legal(s, events[0]) && LegalRun(Step(s, events[0]), events[1..]))
  }

  lemma InterruptedComesFirst(s: System, i: nat)
    requires Resumable(s) && i < |s.rows| && s.rows[i].Interrupted()
    ensures NextTask(s.rows) == Some(s.rows[i])
  {
    forall other | other in s.rows && other.Pending() ensures NoLater(s.rows[i], other) {
      var j :| 0 <= j < |s.rows| && s.rows[j] == other;
      assert Consistent(s.rows[j]);
    }
    NextTaskIsTheForemost(s.rows, s.rows[i]);
  }

  lemma StepKeepsResumable(s: System, e: Event)
    requires Resumable(s) && Legal(s, e)
    ensures Resumable(Step(s, e))
  {
    match e {
      case Enqueue(tasks) =>
        forall i | 0 <= i < |Step(s, e).rows| ensures Consistent(Step(s, e).rows[i]) {
          if i >= |s.rows| { assert tasks[i - |s.rows|] in tasks; }
        }
      case Begin(_) =>
        NextTaskIsStored(s.rows);
        if s.running.None? && NextTask(s.rows).Some? {
          var t := NextTask(s.rows).value;
          forall i | 0 <= i < |s.rows| && s.rows[i].Interrupted() ensures i == t.id { InterruptedComesFirst(s, i); }
        }
      case _ =>
    }
  }

  /** Crash-resume: over every legal history at most one task is started but incomplete, the scheduler
      resumes exactly that task, and outcome and completion time are stored together, on started tasks only. */
  lemma {:induction false} CrashResume(s: System, events: seq<Event>)
    requires Resumable(s) && LegalRun(s, events)
    ensures var f := Execute(s, events);
      && Resumable(f)
      && forall i :: 0 <= i < |f.rows| && f.rows[i].Interrupted() ==> NextTask(f.rows) == Some(f.rows[i])
    decreases |events|
  {
    if events == [] {
      forall i | 0 <= i < |s.rows| && s.rows[i].Interrupted() ensures NextTask(s.rows) == Some(s.rows[i]) {
        InterruptedComesFirst(s, i);
      }
    } else {
      StepKeepsResumable(s, events[0]);
      CrashResume(Step(s, events[0]), events[1..]);
    }
  }

  // ----- What becomes of a command -----

  /** A queued shell command: its return code is checked and nothing restarts it unless keep_alive is turned on. */
  const SHELL := Proc.Config(true, [0], true)

  /** What happens to the command until it ends or its timeout expires, and, after the timeout has cancelled it, until
      its end. */
  datatype CommandRun = CommandRun(before: seq<Proc.Event>, after: seq<Proc.Event>)
  {
    function AtTimeout(): Proc.Monitor { Proc.Execute(Proc.Initial(SHELL, false), before) }

    predicate RunsIntoTimeout() { !AtTimeout().phase.Done? }

    function Ended(): Proc.Monitor {
      if RunsIntoTimeout() then Proc.Execute(Proc.Next(AtTimeout(), Proc.Cancel), after) else AtTimeout()
    }

    /** run() catches InvocationFailedException only; wait_for turns the cancellation into a TimeoutError. */
    function CommandOutcome(): Outcome
      requires Ended().phase.Done?
    {
      match Ended().phase.error
      case None => Succeeded
      case Some(InvocationFailed) => Failed
      case Some(_) => Aborted
    }
  }

  lemma ShellConfigIsKept(run: CommandRun)
    ensures run.Ended().config == SHELL
  {
    Proc.ConfigIsKept(Proc.Initial(SHELL, false), run.before);
    Proc.NextKeepsConfig(run.AtTimeout(), Proc.Cancel);
    Proc.ConfigIsKept(Proc.Next(run.AtTimeout(), Proc.Cancel), run.after);
  }

  /** A command that runs into its timeout never succeeds. It takes the scheduler down exactly when it had not been
      launched, was kept alive, or obeyed the signals with code 0; only a command that has to be killed, or leaves with
      another code, is recorded as failed. */
  lemma TimeoutOutcomeIff(run: CommandRun)
    requires run.RunsIntoTimeout() && run.Ended().phase.Done?
    ensures !run.CommandOutcome().Succeeded?
    ensures run.CommandOutcome().Aborted? <==>
      run.Ended().children == [] || run.Ended().keepAliveAtExit || run.Ended().returnCode == Some(0)
  {
    Proc.CancelledTaskOutcome(SHELL, false, run.before, run.after);
    ShellConfigIsKept(run);
  }

  /** A command that ends in time without any disturbance succeeds exactly with code 0 and fails otherwise. */
  lemma TimelyOutcomeIff(run: CommandRun)
    requires !run.RunsIntoTimeout() && forall e :: e in run.before ==> Proc.Ordinary(e)
    ensures run.CommandOutcome() == if run.Ended().returnCode == Some(0) then Succeeded else Failed
  {
    Proc.OrdinaryEnd(SHELL, false, run.before);
    ShellConfigIsKept(run);
  }

  /** The attempt that this run of the command makes. */
  function AttemptOf(run: CommandRun, startedAt: int, endedAt: int): Attempt
    requires run.Ended().phase.Done?
  {
    Attempt(run.CommandOutcome(), startedAt, endedAt)
  }

  /** A command that obeys its timeout with code 0 is run again: the task stays started and incomplete, and the
      restarted scheduler serves it first. Any other launched command without keep_alive that runs into its timeout is
      completed as failed. */
  lemma ObedientCommandIsRepeated(s: System, run: CommandRun, startedAt: int, endedAt: int)
    requires Resumable(s) && s.running.None? && NextTask(s.rows).Some?
    requires run.RunsIntoTimeout() && run.Ended().phase.Done?
    requires run.Ended().children != [] && !run.Ended().keepAliveAtExit
    ensures var t := NextTask(s.rows).value;
      && t.id < |s.rows|
      && var after := RunOnce(s.rows, t, AttemptOf(run, startedAt, endedAt));
      && Resumable(System(after, None, s.log))
      && if run.Ended().returnCode == Some(0)
         then after[t.id].Interrupted() && NextTask(after) == Some(after[t.id])
         else after[t.id].success == Some(false) && after[t.id].completion == Some(endedAt)
  {
    TimeoutOutcomeIff(run);
    NextTaskIsStored(s.rows);
    var t, attempt := NextTask(s.rows).value, AttemptOf(run, startedAt, endedAt);
    RunIsTwoSteps(s, attempt);
    var begun := Step(s, Begin(startedAt));
    StepKeepsResumable(s, Begin(startedAt));
    StepKeepsResumable(begun, EndOf(attempt));
    var ended := Step(begun, EndOf(attempt));
    var after := RunOnce(s.rows, t, attempt);
    assert ended.rows == after && ended.running == None;
    assert Resumable(System(after, None, s.log));
    if run.Ended().returnCode == Some(0) { InterruptedComesFirst(System(after, None, s.log), t.id); }
  }

  // ----- End-to-end order of a batch -----

  function Within(from: nat, to: nat): nat -> bool { (id: nat) => from <= id < to }

  function Range(from: nat, count: nat): seq<nat> { seq(count, i requires 0 <= i => from + i) }

  /** How row i of the batch looks while its first k tasks are complete: the next one may have been started,
      the rest wait with the batch's priority. */
  predicate BatchRow(t: Task, i: nat, priority: int, k: nat)
  {
    if i < k then t.completion.Some?
    else
      && t.Pending()
      && (i > k ==> t.start.None?)
      && t.priority == if t.start.None? then priority else RUNNING_PRIORITY
  }

  /** The batch is stored from key `from` on, its first k tasks are complete and logged in order. */
  ghost predicate BatchState(s: System, from: nat, batch: seq<Planning.NewTask>, priority: int, k: nat)
  {
    && Keyed(s.rows) && k <= |batch| && from + |batch| <= |s.rows|
    && (forall id :: from <= id < from + |batch| ==>
          s.rows[id].command == batch[id - from].command && BatchRow(s.rows[id], id - from, priority, k))
    && (s.running.Some? ==>
          var t := s.running.value;
          && t.id < |s.rows| && t.start.Some?
          && (from <= t.id < from + |batch| ==> t.id == from + k && s.rows[t.id] == t))
    && Filter(s.log, Within(from, from + |batch|)) == Range(from, k)
  }

  predicate EditsBatch(e: Event, from: nat, count: nat) { e.Edit? && from <= e.id < from + count }

  ghost predicate LeavesBatch(events: seq<Event>, from: nat, count: nat)
  {
    forall e :: e in events ==> !EditsBatch(e, from, count)
  }

  /** A single task is in order whatever its priority. */
  predicate OrderIsSafe(batch: seq<Planning.NewTask>, priority: int) { priority <= RUNNING_PRIORITY || |batch| <= 1 }

  lemma BatchBegin(s: System, now: int, from: nat, batch: seq<Planning.NewTask>, priority: int, k: nat)
    requires BatchState(s, from, batch, priority, k) && OrderIsSafe(batch, priority)
    ensures BatchState(Step(s, Begin(now)), from, batch, priority, k)
  {
    NextTaskIsStored(s.rows);
    if s.running.None? && NextTask(s.rows).Some? {
      var t := NextTask(s.rows).value;
      if from <= t.id < from + |batch| {
        NextTaskIsTheForemost(s.rows, t);
        assert BatchRow(s.rows[t.id], t.id - from, priority, k);
        assert BatchRow(s.rows[from + k], k, priority, k);
        assert NoLater(t, s.rows[from + k]);
      }
    }
  }

  lemma BatchComplete(s: System, success: bool, now: int, from: nat, batch: seq<Planning.NewTask>, priority: int,
      k: nat)
    requires BatchState(s, from, batch, priority, k) && s.running.Some?
    ensures BatchState(Step(s, Complete(success, now)), from, batch, priority,
      if Within(from, from + |batch|)(s.running.value.id) then k + 1 else k)
  {
    var t := s.running.value;
    FilterConcat(s.log, [t.id], Within(from, from + |batch|));
    assert [t.id][1..] == [];
    assert Range(from, k) + [from + k] == Range(from, k + 1);
  }

  /** 1 for an event that completes a task of the batch. */
  function CompletesBatchTask(s: System, e: Event, from: nat, count: nat): nat
  {
    if e.Complete? && s.running.Some? && from <= s.running.value.id < from + count then 1 else 0
  }

  function BatchCompletions(s: System, events: seq<Event>, from: nat, count: nat): nat
    decreases |events|
  {
    if events == [] then 0
    else CompletesBatchTask(s, events[0], from, count) + BatchCompletions(Step(s, events[0]), events[1..], from, count)
  }

  lemma BatchStep(s: System, e: Event, from: nat, batch: seq<Planning.NewTask>, priority: int, k: nat)
    requires BatchState(s, from, batch, priority, k) && OrderIsSafe(batch, priority)
    requires !EditsBatch(e, from, |batch|)
    ensures BatchState(Step(s, e), from, batch, priority, k + CompletesBatchTask(s, e, from, |batch|))
  {
    match e {
      case Begin(now) => BatchBegin(s, now, from, batch, priority, k);
      case Complete(success, now) => if s.running.Some? { BatchComplete(s, success, now, from, batch, priority, k); }
      case _ =>
    }
  }

  lemma {:induction false} BatchRun(s: System, events: seq<Event>, from: nat, batch: seq<Planning.NewTask>,
      priority: int, k: nat)
    requires BatchState(s, from, batch, priority, k) && OrderIsSafe(batch, priority)
    requires LeavesBatch(events, from, |batch|)
    ensures BatchState(Execute(s, events), from, batch, priority, k + BatchCompletions(s, events, from, |batch|))
    decreases |events|
  {
    if events != [] {
      var e := events[0];
      BatchStep(s, e, from, batch, priority, k);
      BatchRun(Step(s, e), events[1..], from, batch, priority, k + CompletesBatchTask(s, e, from, |batch|));
    }
  }

  ghost predicate WellFormed(s: System)
  {
    && Keyed(s.rows)
    && (s.running.Some? ==> s.running.value.id < |s.rows| && s.running.value.start.Some?)
    && (forall id :: id in s.log ==> id < |s.rows|)
  }

  /** The batch keys in the log are the first k keys of the batch, in order and each once; exactly those tasks are
      complete, and the other |batch| - k still wait. */
  ghost predicate CompletedInOrder(s: System, from: nat, batch: seq<Planning.NewTask>, k: nat)
  {
    && Keyed(s.rows) && k <= |batch| && from + |batch| <= |s.rows|
    && Filter(s.log, Within(from, from + |batch|)) == Range(from, k)
    && forall id :: from <= id < from + |batch| ==>
         && s.rows[id].command == batch[id - from].command
         && (s.rows[id].completion.Some? <==> id < from + k)
         && (s.rows[id].Pending() <==> id >= from + k)
  }

  lemma BatchQueued(s: System, batch: seq<Planning.NewTask>, priority: int)
    requires WellFormed(s) && forall t :: t in batch ==> t.priority == priority
    ensures BatchState(Step(s, Enqueue(batch)), |s.rows|, batch, priority, 0)
  {
    assert forall i :: 0 <= i < |batch| ==> batch[i] in batch;
    FilterAllOrNothing(s.log, Within(|s.rows|, |s.rows| + |batch|));
  }

  /** Whatever else is queued, edited, run or crashed around it, an unedited batch of one priority up to 999 completes
      in planned order: after any history, as many of its first tasks are complete as the history holds completions of
      batch tasks. */
  lemma BatchCompletesInPlannedOrder(s: System, batch: seq<Planning.NewTask>, priority: int, events: seq<Event>)
    requires WellFormed(s) && OrderIsSafe(batch, priority)
    requires forall t :: t in batch ==> t.priority == priority
    requires LeavesBatch(events, |s.rows|, |batch|)
    ensures CompletedInOrder(Execute(s, [Enqueue(batch)] + events), |s.rows|, batch,
      BatchCompletions(Step(s, Enqueue(batch)), events, |s.rows|, |batch|))
  {
    BatchQueued(s, batch, priority);
    BatchRun(Step(s, Enqueue(batch)), events, |s.rows|, batch, priority, 0);
    ExecuteFirst(s, Enqueue(batch), events);
  }

  // ----- The batch gets done -----

  /** Pending tasks that the queue serves no later than the batch tasks with keys below `until`. */
  function AheadOf(priority: int, until: nat): Task -> bool
  {
    (t: Task) => t.Pending() && (t.priority > priority || (t.priority == priority && t.id < until))
  }

  predicate RunsAside(s: System, priority: int, until: nat)
  {
    s.running.Some? && s.running.value.id < |s.rows| && !AheadOf(priority, until)(s.rows[s.running.value.id])
  }

  /** How many completions can come before the last batch task: the tasks ahead, and a running one that is not among
      them. */
  function Distance(s: System, priority: int, until: nat): nat
  {
    Count(s.rows, AheadOf(priority, until)) + if RunsAside(s, priority, until) then 1 else 0
  }

  function Outranks(priority: int): Planning.NewTask -> bool { (t: Planning.NewTask) => t.priority > priority }

  /** How many tasks an event lets in ahead of the batch. */
  function Jumps(e: Event, priority: int): nat
  {
    match e
    case Enqueue(tasks) => Count(tasks, Outranks(priority))
    case Edit(_, p, paused) => if !paused && p >= priority then 1 else 0
    case _ => 0
  }

  function JumpsIn(events: seq<Event>, priority: int): nat
  {
    if events == [] then 0 else Jumps(events[0], priority) + JumpsIn(events[1..], priority)
  }

  lemma EnqueueDistance(s: System, tasks: seq<Planning.NewTask>, priority: int, until: nat)
    requires until <= |s.rows| && (s.running.Some? ==> s.running.value.id < |s.rows|)
    ensures Distance(Step(s, Enqueue(tasks)), priority, until)
      <= Distance(s, priority, until) + Count(tasks, Outranks(priority))
  {
    var p := AheadOf(priority, until);
    var rows := Created(s.rows, tasks);
    var added := rows[|s.rows|..];
    assert rows == s.rows + added;
    CountConcat(s.rows, added, p);
    CountAligned(added, tasks, p, Outranks(priority));
  }

  lemma BeginDistance(s: System, now: int, from: nat, batch: seq<Planning.NewTask>, priority: int, k: nat)
    requires BatchState(s, from, batch, priority, k) && priority <= RUNNING_PRIORITY && k < |batch|
    ensures Distance(Step(s, Begin(now)), priority, from + |batch|) == Distance(s, priority, from + |batch|)
  {
    NextTaskIsStored(s.rows);
    if s.running.None? && NextTask(s.rows).Some? {
      var t, p := NextTask(s.rows).value, AheadOf(priority, from + |batch|);
      NextTaskIsTheForemost(s.rows, t);
      assert BatchRow(s.rows[from + k], k, priority, k);
      assert s.rows[from + k] in s.rows && p(s.rows[from + k]);
      assert NoLater(t, s.rows[from + k]) && p(t);
      CountUpdate(s.rows, t.id, Started(t, now), p);
    }
  }

  lemma CompleteDistance(s: System, success: bool, now: int, priority: int, until: nat)
    requires s.running.Some? && s.running.value.id < |s.rows|
    ensures Distance(Step(s, Complete(success, now)), priority, until) + 1 == Distance(s, priority, until)
  {
    CountUpdate(s.rows, s.running.value.id, Finished(s.running.value, success, now), AheadOf(priority, until));
  }

  lemma EditDistance(s: System, e: Event, priority: int, until: nat)
    requires e.Edit? && Keyed(s.rows)
    ensures Distance(Step(s, e), priority, until) <= Distance(s, priority, until) + Jumps(e, priority)
  {
    if e.id < |s.rows| {
      CountUpdate(s.rows, e.id, s.rows[e.id].(priority := e.priority, paused := e.paused), AheadOf(priority, until));
    }
  }

  lemma StepDistance(s: System, e: Event, from: nat, batch: seq<Planning.NewTask>, priority: int, k: nat)
    requires BatchState(s, from, batch, priority, k) && priority <= RUNNING_PRIORITY && k < |batch|
    ensures Distance(Step(s, e), priority, from + |batch|) + |Step(s, e).log|
         <= Distance(s, priority, from + |batch|) + |s.log| + Jumps(e, priority)
  {
    match e {
      case Enqueue(tasks) => EnqueueDistance(s, tasks, priority, from + |batch|);
      case Begin(now) => BeginDistance(s, now, from, batch, priority, k);
      case Complete(success, now) => if s.running.Some? { CompleteDistance(s, success, now, priority, from + |batch|); }
      case Crash =>
      case Edit(_, _, _) => EditDistance(s, e, priority, from + |batch|);
    }
  }

  /** Until the batch is done, every completion brings it nearer, and only queue jumpers set it back. */
  lemma {:induction false} BatchProgress(s: System, events: seq<Event>, from: nat, batch: seq<Planning.NewTask>,
      priority: int, k: nat)
    requires BatchState(s, from, batch, priority, k) && priority <= RUNNING_PRIORITY
    requires LeavesBatch(events, from, |batch|)
    ensures k + BatchCompletions(s, events, from, |batch|) >= |batch| ||
      Distance(Execute(s, events), priority, from + |batch|) + |Execute(s, events).log|
        <= Distance(s, priority, from + |batch|) + |s.log| + JumpsIn(events, priority)
    decreases |events|
  {
    if events != [] && k < |batch| {
      var e := events[0];
      BatchStep(s, e, from, batch, priority, k);
      StepDistance(s, e, from, batch, priority, k);
      BatchProgress(Step(s, e), events[1..], from, batch, priority, k + CompletesBatchTask(s, e, from, |batch|));
    }
  }

  predicate Precedes(priority: int, t: Task) { t.Pending() && t.priority >= priority }

  /** The tasks that may go before a batch queued now: what is pending at its priority or above, and what is running. */
  function Before(s: System, priority: int): nat
  {
    Count(s.rows, (t: Task) => Precedes(priority, t)) + if s.running.Some? then 1 else 0
  }

  lemma QueuedDistance(s: System, batch: seq<Planning.NewTask>, priority: int)
    requires WellFormed(s)
    ensures Distance(Step(s, Enqueue(batch)), priority, |s.rows| + |batch|) <= Before(s, priority) + |batch|
  {
    var p := AheadOf(priority, |s.rows| + |batch|);
    var rows := Created(s.rows, batch);
    var added := rows[|s.rows|..];
    assert rows == s.rows + added;
    CountConcat(s.rows, added, p);
    CountAligned(s.rows, s.rows, p, (t: Task) => Precedes(priority, t));
  }

  lemma UnfinishedIsDistant(s: System, from: nat, batch: seq<Planning.NewTask>, priority: int, k: nat)
    requires BatchState(s, from, batch, priority, k) && priority <= RUNNING_PRIORITY && k < |batch|
    ensures Distance(s, priority, from + |batch|) > 0
  {
    assert BatchRow(s.rows[from + k], k, priority, k);
    CountPositive(s.rows, from + k, AheadOf(priority, from + |batch|));
  }

  lemma EnoughCompletions(s: System, from: nat, batch: seq<Planning.NewTask>, priority: int, events: seq<Event>)
    requires BatchState(s, from, batch, priority, 0) && priority <= RUNNING_PRIORITY
    requires LeavesBatch(events, from, |batch|)
    requires |Execute(s, events).log| >= |s.log| + Distance(s, priority, from + |batch|) + JumpsIn(events, priority)
    ensures BatchCompletions(s, events, from, |batch|) == |batch|
  {
    var k := BatchCompletions(s, events, from, |batch|);
    BatchRun(s, events, from, batch, priority, 0);
    BatchProgress(s, events, from, batch, priority, 0);
    if k < |batch| {
      UnfinishedIsDistant(Execute(s, events), from, batch, priority, k);
    }
  }

  /** End-to-end fairness: whatever interleaves with an unedited batch, once the history holds as many completions as
      there were tasks before it, in it, or let in ahead of it, the whole batch is complete, in planned order and each
      task once. */
  lemma BatchCompletes(s: System, batch: seq<Planning.NewTask>, priority: int, events: seq<Event>)
    requires WellFormed(s) && priority <= RUNNING_PRIORITY
    requires forall t :: t in batch ==> t.priority == priority
    requires LeavesBatch(events, |s.rows|, |batch|)
    requires |Execute(s, [Enqueue(batch)] + events).log| >= |s.log| + Before(s, priority) + |batch|
      + JumpsIn(events, priority)
    ensures CompletedInOrder(Execute(s, [Enqueue(batch)] + events), |s.rows|, batch, |batch|)
  {
    BatchCompletesInPlannedOrder(s, batch, priority, events);
    ExecuteFirst(s, Enqueue(batch), events);
    BatchQueued(s, batch, priority);
    QueuedDistance(s, batch, priority);
    EnoughCompletions(Step(s, Enqueue(batch)), |s.rows|, batch, priority, events);
  }

  /** The same for a planned benchmark batch: it is run interleaved as planned, with the manual pause last. */
  lemma PlannedBatchCompletes(s: System, ctx: Planning.Context, benchmarks: seq<Planning.Benchmark>,
      clusters: seq<Planning.Cluster>, vendors: seq<string>, batch: seq<Planning.NewTask>, events: seq<Event>)
    requires WellFormed(s) && ctx.request.priority <= RUNNING_PRIORITY
    requires batch == Planning.Batch(ctx.Rows(benchmarks, clusters, vendors), ctx.request)
    requires LeavesBatch(events, |s.rows|, |batch|)
    requires |Execute(s, [Enqueue(batch)] + events).log|
          >= |s.log| + Before(s, ctx.request.priority) + |batch| + JumpsIn(events, ctx.request.priority)
    ensures var f := Execute(s, [Enqueue(batch)] + events);
      && CompletedInOrder(f, |s.rows|, batch, |batch|)
      && (batch != [] ==> (f.rows[|s.rows| + |batch| - 1].command.ManualPause? <==> ctx.request.addPause))
  {
    Planning.BatchShape(ctx, benchmarks, clusters, vendors);
    BatchCompletes(s, batch, ctx.request.priority, events);
  }

  lemma {:induction false} ExecuteConcat(s: System, events: seq<Event>, more: seq<Event>)
    ensures Execute(s, events + more) == Execute(Execute(s, events), more)
    decreases |events|
  {
    if events == [] {
      assert events + more == more;
    } else {
      assert (events + more)[1..] == events[1..] + more;
      ExecuteConcat(Step(s, events[0]), events[1..], more);
    }
  }

  lemma {:induction false} PollsEditNothing(rows: Rows, attempts: seq<Attempt>)
    requires Keyed(rows)
    ensures forall e :: e in EventsOf(rows, attempts) ==> !e.Edit?
    decreases |attempts|
  {
    if attempts != [] {
      if NextTask(rows).None? {
        PollsEditNothing(rows, attempts[1..]);
      } else {
        NextTaskIsStored(rows);
        PollsEditNothing(RunOnce(rows, NextTask(rows).value, attempts[0]), attempts[1..]);
      }
    }
  }

  lemma PollsDrainTheQueue(s: System, attempts: seq<Attempt>)
    requires Keyed(s.rows) && s.running.None? && |attempts| == |PendingTasks(s.rows)|
    requires forall i :: 0 <= i < |attempts| ==> !attempts[i].outcome.Aborted?
    ensures PendingTasks(Execute(s, EventsOf(s.rows, attempts)).rows) == []
  {
    LoopIsAHistory(s.rows, s.log, attempts);
    LoopServesInOrder(s.rows, attempts);
    assert s == System(s.rows, None, s.log);
  }

  /** Once nothing is pending, the batch is done. */
  lemma DrainedBatchIsDone(s: System, from: nat, batch: seq<Planning.NewTask>, k: nat)
    requires CompletedInOrder(s, from, batch, k) && PendingTasks(s.rows) == []
    ensures k == |batch|
  {
    PendingTasksMembers(s.rows);
    if batch != [] {
      var last := s.rows[from + |batch| - 1];
      assert last in s.rows && !last.Pending();
    }
  }

  /** Left to itself after any history, the scheduler's loop completes what is left of the batch, one poll per pending
      task. */
  lemma LoopCompletesTheBatch(s: System, batch: seq<Planning.NewTask>, priority: int, events: seq<Event>,
      attempts: seq<Attempt>)
    requires WellFormed(s) && OrderIsSafe(batch, priority)
    requires forall t :: t in batch ==> t.priority == priority
    requires LeavesBatch(events, |s.rows|, |batch|)
    requires var f := Execute(s, [Enqueue(batch)] + events); f.running.None? && |attempts| == |PendingTasks(f.rows)|
    requires forall i :: 0 <= i < |attempts| ==> !attempts[i].outcome.Aborted?
    ensures var f := Execute(s, [Enqueue(batch)] + events);
      Keyed(f.rows) && CompletedInOrder(Execute(f, EventsOf(f.rows, attempts)), |s.rows|, batch, |batch|)
  {
    var f := Execute(s, [Enqueue(batch)] + events);
    BatchCompletesInPlannedOrder(s, batch, priority, events);
    var polls := EventsOf(f.rows, attempts);
    PollsEditNothing(f.rows, attempts);
    BatchCompletesInPlannedOrder(s, batch, priority, events + polls);
    ExecuteConcat(s, [Enqueue(batch)] + events, polls);
    ConcatAssociates([Enqueue(batch)], events, polls);
    PollsDrainTheQueue(f, attempts);
    DrainedBatchIsDone(Execute(f, polls), |s.rows|, batch,
      BatchCompletions(Step(s, Enqueue(batch)), events + polls, |s.rows|, |batch|));
  }

  // ----- Priorities above 999 -----

  /** After this history the batch has been worked off in order as far as it got. */
  ghost predicate KeepsOrder(s: System, batch: seq<Planning.NewTask>, events: seq<Event>)
  {
    WellFormed(s) && LeavesBatch(events, |s.rows|, |batch|) ==>
      exists k :: CompletedInOrder(Execute(s, [Enqueue(batch)] + events), |s.rows|, batch, k)
  }

  /** Every history keeps the planned order exactly when the priority is at most 999 or there is no second task: above
      999 the promotion demotes. */
  lemma PlannedOrderIff(batch: seq<Planning.NewTask>, priority: int)
    requires forall t :: t in batch ==> t.priority == priority
    ensures (forall s, events :: KeepsOrder(s, batch, events)) <==> priority <= RUNNING_PRIORITY || |batch| <= 1
  {
    if OrderIsSafe(batch, priority) {
      forall s, events ensures KeepsOrder(s, batch, events) {
        if WellFormed(s) && LeavesBatch(events, |s.rows|, |batch|) {
          BatchCompletesInPlannedOrder(s, batch, priority, events);
        }
      }
    } else {
      SecondTaskOvertakes(batch, priority);
      assert !KeepsOrder(System([], None, []), batch, OVERTAKING);
    }
  }

  const OVERTAKING := [Begin(0), Crash, Begin(1), Complete(true, 2)]

  /** After a crash the second task of such a batch overtakes the first. */
  lemma SecondTaskOvertakes(batch: seq<Planning.NewTask>, priority: int)
    requires priority > RUNNING_PRIORITY && |batch| >= 2 && forall t :: t in batch ==> t.priority == priority
    ensures forall k :: !CompletedInOrder(Execute(System([], None, []), [Enqueue(batch)] + OVERTAKING), 0, batch, k)
  {
    var queued := Step(System([], None, []), Enqueue(batch));
    ExecuteFirst(System([], None, []), Enqueue(batch), OVERTAKING);
    assert OVERTAKING == [Begin(0)] + ([Crash] + [Begin(1), Complete(true, 2)]);
    ExecuteTwo(queued, Begin(0), Crash, [Begin(1), Complete(true, 2)]);
    assert [Begin(1), Complete(true, 2)] == [Begin(1)] + ([Complete(true, 2)] + []);
    ExecuteTwo(Step(Step(queued, Begin(0)), Crash), Begin(1), Complete(true, 2), []);
    OvertakingRun(batch, priority);
    var log: seq<nat> := [1];
    assert log[1..] == [];
    assert Filter(log, Within(0, |batch|)) == log;
    assert forall k: nat :: k > 0 ==> Range(0, k)[0] == 0;
  }

  lemma OvertakingRun(batch: seq<Planning.NewTask>, priority: int)
    requires priority > RUNNING_PRIORITY && |batch| >= 2 && forall t :: t in batch ==> t.priority == priority
    ensures var queued := Step(System([], None, []), Enqueue(batch));
      Step(Step(Step(Step(queued, Begin(0)), Crash), Begin(1)), Complete(true, 2)).log == [1]
  {
    var queued := Step(System([], None, []), Enqueue(batch));
    assert forall i :: 0 <= i < |batch| ==> batch[i] in batch;
    NextTaskIsTheForemost(queued.rows, queued.rows[0]);
    var crashed := Step(Step(queued, Begin(0)), Crash);
    assert crashed.rows == queued.rows[0 := Started(queued.rows[0], 0)];
    NextTaskIsTheForemost(crashed.rows, crashed.rows[1]);
  }

  lemma ExecuteFirst(s: System, e: Event, events: seq<Event>)
    ensures Execute(s, [e] + events) == Execute(Step(s, e), events)
  {
    assert ([e] + events)[1..] == events;
  }
}
