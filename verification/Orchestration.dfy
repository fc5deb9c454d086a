/** Background tasks of a benchmark, their cleanup, and the lifecycle of the benchmark's profile. */
module Orchestration {
  import opened Sequences
  import Proc = ProcessInvocation

  /** How an asyncio task ends. TimedOut: with a TimeoutError. Raised: with any other exception except cancellation. */
  datatype Outcome = Returned | Raised(error: string) | TimedOut | WasCancelled
  {
    /** Asked for its result, the task raises something that run_for does not swallow. */
    predicate Fails() { Raised? || WasCancelled? }

    /** The exception that leaves the cleanup callback of a cancelled task, which swallows only the cancellation. */
    function Escaping(): Option<string> {
      match this
      case Raised(error) => Some(error)
      case TimedOut => Some("TimeoutError")
      case _ => None
    }
  }

  datatype Status = Running | Finished(outcome: Outcome)

  /** What ends on its own while something is awaited: the outcome of each task that finishes meanwhile. */
  type Progress = map<nat, Outcome>

  function Advance(tasks: seq<Status>, progress: Progress): (r: seq<Status>)
    ensures |r| == |tasks|
    ensures forall i :: 0 <= i < |tasks| && tasks[i].Finished? ==> r[i] == tasks[i]
  {
    seq(|tasks|, i requires 0 <= i < |tasks| =>
      if tasks[i].Running? && i in progress then Finished(progress[i]) else tasks[i])
  }

  // ----- Asking for results -----

  function UpTo(n: nat): seq<nat> { seq(n, i requires 0 <= i => i) }

  predicate IsFinished(tasks: seq<Status>, i: nat) { i < |tasks| && tasks[i].Finished? }

  function AmongFinished(tasks: seq<Status>): nat -> bool { (i: nat) => IsFinished(tasks, i) }

  function ByRank(rank: nat -> nat): (nat, nat) -> bool { (i: nat, j: nat) => rank(i) <= rank(j) }

  /** The order in which the set of finished tasks is visited. */
  function Visited(tasks: seq<Status>, rank: nat -> nat): seq<nat>
  {
    Sort(Filter(UpTo(|tasks|), AmongFinished(tasks)), ByRank(rank))
  }

  lemma VisitedAreFinished(tasks: seq<Status>, rank: nat -> nat)
    ensures forall i :: i in Visited(tasks, rank) <==> IsFinished(tasks, i)
    ensures SortedBy(Visited(tasks, rank), ByRank(rank))
  {
    FilterMembers(UpTo(|tasks|), AmongFinished(tasks));
    SortKeepsElements(Filter(UpTo(|tasks|), AmongFinished(tasks)), ByRank(rank));
    SortIsSorted(Filter(UpTo(|tasks|), AmongFinished(tasks)), ByRank(rank));
    forall i: nat | IsFinished(tasks, i) ensures i in UpTo(|tasks|) { assert UpTo(|tasks|)[i] == i; }
  }

  function Position(order: seq<nat>, i: nat): (p: nat)
    ensures i in order ==> p < |order| && order[p] == i
  {
    if order == [] || order[0] == i then 0 else Position(order[1..], i) + 1
  }

  function RankIn(order: seq<nat>): nat -> nat { (i: nat) => Position(order, i) }

  lemma {:induction false} PositionOf(order: seq<nat>, p: nat)
    requires p < |order| && forall j, k :: 0 <= j < k < |order| ==> order[j] != order[k]
    ensures Position(order, order[p]) == p
  {
    if p > 0 { PositionOf(order[1..], p - 1); }
  }

  ghost predicate Distinct(order: seq<nat>) { forall j, k :: 0 <= j < k < |order| ==> order[j] != order[k] }

  lemma PositionsAscend(order: seq<nat>)
    requires Distinct(order)
    ensures SortedBy(order, ByRank(RankIn(order)))
  {
    forall j, k | 0 <= j < k < |order| ensures ByRank(RankIn(order))(order[j], order[k]) {
      PositionOf(order, j);
      PositionOf(order, k);
    }
  }

  lemma RankedArrangement(order: seq<nat>, arranged: seq<nat>)
    requires Distinct(order) && multiset(arranged) == multiset(order)
    requires SortedBy(arranged, ByRank(RankIn(order)))
    ensures arranged == order
  {
    PositionsAscend(order);
    forall i | i in arranged ensures i in order { assert i in multiset(arranged); }
    SortedArrangementIsUnique(arranged, order, ByRank(RankIn(order)));
  }

  /** Rankings leave nothing out: every order of the finished tasks is visited under some ranking. */
  lemma EveryOrderIsRanked(tasks: seq<Status>, order: seq<nat>)
    requires multiset(order) == multiset(Filter(UpTo(|tasks|), AmongFinished(tasks))) && Distinct(order)
    ensures Visited(tasks, RankIn(order)) == order
  {
    var finished := Filter(UpTo(|tasks|), AmongFinished(tasks));
    SortIsSorted(finished, ByRank(RankIn(order)));
    SortKeepsElements(finished, ByRank(RankIn(order)));
    RankedArrangement(order, Visited(tasks, RankIn(order)));
  }

  /** What comes out of asking for results in this order: a TimeoutError is swallowed, and with it the results not yet
      asked for; the first other exception is raised. */
  function Ask(tasks: seq<Status>, order: seq<nat>): Option<string>
    requires forall i :: i in order ==> IsFinished(tasks, i)
  {
    if order == [] then None else
      assert order[0] in order && IsFinished(tasks, order[0]);
      match tasks[order[0]].outcome
      case Returned => Ask(tasks, order[1..])
      case TimedOut => None
      case Raised(error) => Some(error)
      case WasCancelled => Some("CancelledError")
  }

  predicate FailsAt(tasks: seq<Status>, i: nat) { IsFinished(tasks, i) && tasks[i].outcome.Fails() }

  predicate TimedOutAt(tasks: seq<Status>, i: nat) { IsFinished(tasks, i) && tasks[i].outcome.TimedOut? }

  /** Every failed task comes after one that timed out. */
  ghost predicate FailuresHidden(tasks: seq<Status>, order: seq<nat>)
  {
    forall p :: 0 <= p < |order| && FailsAt(tasks, order[p]) ==> exists q :: 0 <= q < p && TimedOutAt(tasks, order[q])
  }

  lemma {:induction false} AskPassesIff(tasks: seq<Status>, order: seq<nat>)
    requires forall i :: i in order ==> IsFinished(tasks, i)
    ensures Ask(tasks, order).None? <==> FailuresHidden(tasks, order)
  {
    if order != [] {
      var rest := order[1..];
      assert order[0] in order && IsFinished(tasks, order[0]);
      AskPassesIff(tasks, rest);
      if tasks[order[0]].outcome.Returned? {
        HiddenInRest(tasks, order);
      } else if tasks[order[0]].outcome.TimedOut? {
        assert TimedOutAt(tasks, order[0]);
      } else {
        assert FailsAt(tasks, order[0]);
      }
    }
  }

  lemma HiddenInRest(tasks: seq<Status>, order: seq<nat>)
    requires order != [] && !FailsAt(tasks, order[0]) && !TimedOutAt(tasks, order[0])
    ensures FailuresHidden(tasks, order) <==> FailuresHidden(tasks, order[1..])
  {
    var rest := order[1..];
    if FailuresHidden(tasks, order) {
      forall p | 0 <= p < |rest| && FailsAt(tasks, rest[p])
        ensures exists q :: 0 <= q < p && TimedOutAt(tasks, rest[q])
      {
        assert order[p + 1] == rest[p];
        var q :| 0 <= q < p + 1 && TimedOutAt(tasks, order[q]);
        assert TimedOutAt(tasks, rest[q - 1]);
      }
    }
    if FailuresHidden(tasks, rest) {
      forall p | 0 <= p < |order| && FailsAt(tasks, order[p])
        ensures exists q :: 0 <= q < p && TimedOutAt(tasks, order[q])
      {
        assert rest[p - 1] == order[p];
        var q :| 0 <= q < p - 1 && TimedOutAt(tasks, rest[q]);
        assert TimedOutAt(tasks, order[q + 1]);
      }
    }
  }

  ghost predicate PassesFor(tasks: seq<Status>, rank: nat -> nat) { FailuresHidden(tasks, Visited(tasks, rank)) }

  /** No finished task failed. */
  ghost predicate NoneFailed(tasks: seq<Status>) { forall i: nat :: !FailsAt(tasks, i) }

  /** No finished task failed, or one timed out that could be asked first. */
  ghost predicate MayPass(tasks: seq<Status>) { NoneFailed(tasks) || exists i: nat :: TimedOutAt(tasks, i) }

  function RankedFirst(first: nat): nat -> nat { (i: nat) => if i == first then 0 else 1 }

  lemma FirstIsVisitedFirst(tasks: seq<Status>, i: nat)
    requires IsFinished(tasks, i)
    ensures Visited(tasks, RankedFirst(i)) != [] && Visited(tasks, RankedFirst(i))[0] == i
  {
    var rank := RankedFirst(i);
    VisitedAreFinished(tasks, rank);
    var order := Visited(tasks, rank);
    var p :| 0 <= p < |order| && order[p] == i;
    if p > 0 { assert ByRank(rank)(order[0], order[p]); }
  }

  /** The visiting order can make the difference: the results are sure to pass exactly when no finished task failed, and
      can pass exactly when besides one timed out. */
  lemma PassingOverAllOrders(tasks: seq<Status>)
    ensures (forall rank :: PassesFor(tasks, rank)) <==> NoneFailed(tasks)
    ensures (exists rank :: PassesFor(tasks, rank)) <==> MayPass(tasks)
  {
    if !NoneFailed(tasks) {
      var i: nat :| FailsAt(tasks, i);
      FirstIsVisitedFirst(tasks, i);
      assert !PassesFor(tasks, RankedFirst(i));
    } else {
      assert PassesFor(tasks, RankedFirst(0));
    }
    if i: nat :| TimedOutAt(tasks, i) {
      FirstIsVisitedFirst(tasks, i);
      assert PassesFor(tasks, RankedFirst(i));
    } else {
      forall rank | PassesFor(tasks, rank) ensures NoneFailed(tasks) { NothingHides(tasks, rank); }
    }
  }

  lemma NothingHides(tasks: seq<Status>, rank: nat -> nat)
    requires PassesFor(tasks, rank) && forall i: nat :: !TimedOutAt(tasks, i)
    ensures NoneFailed(tasks)
  {
    VisitedAreFinished(tasks, rank);
    forall i: nat ensures !FailsAt(tasks, i) {
      if IsFinished(tasks, i) {
        var p :| 0 <= p < |Visited(tasks, rank)| && Visited(tasks, rank)[p] == i;
      }
    }
  }

  // ----- Cleanup -----

  datatype Cleaned = Cleaned(tasks: seq<Status>, stopped: seq<nat>, error: Option<string>)

  function At(progress: seq<Progress>, i: nat): Progress { if i < |progress| then progress[i] else map[] }

  /** Stopping one task: a finished task is left alone; a running one is cancelled and awaited, which may let others
      finish too. Cancellation is swallowed, any other exception leaves the callback. */
  function Stop(tasks: seq<Status>, i: nat, end: Outcome, progress: Progress): (seq<Status>, Option<string>)
    requires i < |tasks|
    ensures |Stop(tasks, i, end, progress).0| == |tasks|
  {
    if tasks[i].Finished? then (tasks, None) else
      (Advance(tasks[i := Finished(end)], progress), end.Escaping())
  }

  ghost predicate Indices(stack: seq<nat>, n: nat)
  {
    forall k :: 0 <= k < |stack| ==> stack[k] < n
  }

  /** Closing the exit stack: callbacks run last in, first out, all of them; the latest exception is the one raised. */
  function CloseStack(tasks: seq<Status>, stack: seq<nat>, ends: seq<Outcome>, progress: seq<Progress>,
      pending: Option<string>): (c: Cleaned)
    requires |ends| == |tasks| && Indices(stack, |tasks|)
    ensures |c.tasks| == |tasks|
    decreases |stack|
  {
    if stack == [] then Cleaned(tasks, [], pending) else
      var i, rest := stack[|stack| - 1], stack[..|stack| - 1];
      var (tasks', raised) := Stop(tasks, i, ends[i], At(progress, 0));
      var c := CloseStack(tasks', rest, ends, if progress == [] then [] else progress[1..],
        if raised.Some? then raised else pending);
      c.(stopped := (if tasks[i].Running? then [i] else []) + c.stopped)
  }

  ghost predicate FinishedKept(before: seq<Status>, after: seq<Status>)
  {
    |after| == |before| && forall i :: 0 <= i < |before| && before[i].Finished? ==> after[i] == before[i]
  }

  lemma StopFinishes(tasks: seq<Status>, i: nat, end: Outcome, progress: Progress)
    requires i < |tasks|
    ensures var (tasks', raised) := Stop(tasks, i, end, progress);
      && FinishedKept(tasks, tasks') && tasks'[i].Finished?
      && (tasks[i].Running? ==> tasks'[i] == Finished(end))
      && raised == if tasks[i].Running? then end.Escaping() else None
  {
    assert Advance(tasks[i := Finished(end)], progress)[i] == Finished(end);
  }

  lemma {:induction false} CloseStackFinishes(tasks: seq<Status>, stack: seq<nat>, ends: seq<Outcome>,
      progress: seq<Progress>, pending: Option<string>)
    requires |ends| == |tasks| && Indices(stack, |tasks|)
    ensures var c := CloseStack(tasks, stack, ends, progress, pending);
      FinishedKept(tasks, c.tasks) && forall k :: 0 <= k < |stack| ==> c.tasks[stack[k]].Finished?
    decreases |stack|
  {
    if stack != [] {
      var i, rest := stack[|stack| - 1], stack[..|stack| - 1];
      var (tasks', raised) := Stop(tasks, i, ends[i], At(progress, 0));
      StopFinishes(tasks, i, ends[i], At(progress, 0));
      CloseStackFinishes(tasks', rest, ends, if progress == [] then [] else progress[1..],
        if raised.Some? then raised else pending);
    }
  }

  lemma {:induction false} CloseStackRaises(tasks: seq<Status>, stack: seq<nat>, ends: seq<Outcome>,
      progress: seq<Progress>, pending: Option<string>)
    requires |ends| == |tasks| && Indices(stack, |tasks|)
    ensures var c := CloseStack(tasks, stack, ends, progress, pending);
      && (forall i :: i in c.stopped ==> i < |tasks| && tasks[i].Running?)
      && (c.error.None? <==> pending.None? && forall i :: i in c.stopped ==> ends[i].Escaping().None?)
    decreases |stack|
  {
    if stack != [] {
      var i, rest := stack[|stack| - 1], stack[..|stack| - 1];
      var (tasks', raised) := Stop(tasks, i, ends[i], At(progress, 0));
      StopFinishes(tasks, i, ends[i], At(progress, 0));
      CloseStackRaises(tasks', rest, ends, if progress == [] then [] else progress[1..],
        if raised.Some? then raised else pending);
    }
  }

  /** Everything on the stack ends up finished, whatever the callbacks raise; what was finished stays; and an exception
      comes out exactly when one was pending or a task that had to be cancelled raised something else. */
  lemma CloseStackFinishesAll(tasks: seq<Status>, stack: seq<nat>, ends: seq<Outcome>, progress: seq<Progress>,
      pending: Option<string>)
    requires |ends| == |tasks| && Indices(stack, |tasks|)
    ensures var c := CloseStack(tasks, stack, ends, progress, pending);
      && FinishedKept(tasks, c.tasks)
      && (forall k :: 0 <= k < |stack| ==> c.tasks[stack[k]].Finished?)
      && (forall i :: i in c.stopped ==> i < |tasks| && tasks[i].Running?)
      && (c.error.None? <==> pending.None? && forall i :: i in c.stopped ==> ends[i].Escaping().None?)
  {
    CloseStackFinishes(tasks, stack, ends, progress, pending);
    CloseStackRaises(tasks, stack, ends, progress, pending);
  }

  class MultiTaskController {
    var backgroundTasks: seq<Status>
    var exitStack: seq<nat>

    /** Every task is on the exit stack, in the order of addition, until the stack is closed. */
    ghost predicate Valid()
      reads this
    {
      exitStack == UpTo(|backgroundTasks|)
    }

    constructor ()
      ensures Valid() && backgroundTasks == []
    {
      backgroundTasks, exitStack := [], [];
    }

    method AddTask()
      requires Valid()
      modifies this
      ensures Valid() && backgroundTasks == old(backgroundTasks) + [Running]
    {
      exitStack := exitStack + [|backgroundTasks|];
      backgroundTasks := backgroundTasks + [Running];
    }

    /** Waits while `progress` happens, then asks every finished task for its result, in the order of the set. Without
        any task the wait raises; an interrupted wait raises too. */
    method RunFor(progress: Progress, interrupted: bool, rank: nat -> nat) returns (error: Option<string>)
      requires Valid()
      modifies this`backgroundTasks
      ensures Valid()
      ensures backgroundTasks == if old(backgroundTasks) == [] then [] else Advance(old(backgroundTasks), progress)
      ensures error.None? <==> backgroundTasks != [] && !interrupted && PassesFor(backgroundTasks, rank)
    {
      if backgroundTasks == [] {
        return Some("ValueError");
      }
      backgroundTasks := Advance(backgroundTasks, progress);
      if interrupted {
        return Some("CancelledError");
      }
      var done := Visited(backgroundTasks, rank);
      VisitedAreFinished(backgroundTasks, rank);
      AskPassesIff(backgroundTasks, done);
      error := AskResults(done);
    }

    /** The loop over the finished tasks, inside the handler that swallows a TimeoutError. */
    method AskResults(done: seq<nat>) returns (error: Option<string>)
      requires forall i :: i in done ==> IsFinished(backgroundTasks, i)
      ensures error == Ask(backgroundTasks, done)
    {
      assert done[0..] == done;
      for k := 0 to |done|
        invariant Ask(backgroundTasks, done) == Ask(backgroundTasks, done[k..])
      {
        assert done[k] in done && done[k..][1..] == done[k + 1..];
        match backgroundTasks[done[k]].outcome {
          case Returned =>
          case TimedOut => return None;
          case Raised(raised) => return Some(raised);
          case WasCancelled => return Some("CancelledError");
        }
      }
      return None;
    }

    method StopTask(i: nat, end: Outcome, progress: Progress) returns (error: Option<string>)
      requires i < |backgroundTasks|
      modifies this`backgroundTasks
      ensures (backgroundTasks, error) == Stop(old(backgroundTasks), i, end, progress)
      ensures |backgroundTasks| == |old(backgroundTasks)|
    {
      error := None;
      if backgroundTasks[i].Running? {
        backgroundTasks := Advance(backgroundTasks[i := Finished(end)], progress);
        error := end.Escaping();
      }
    }

    /** Closes the exit stack; every task is done afterwards, even when stopping one raises. */
    method CancelPendingTasks(ends: seq<Outcome>, progress: seq<Progress>) returns (error: Option<string>)
      requires Valid() && |ends| == |backgroundTasks|
      modifies this
      ensures exitStack == [] && |backgroundTasks| == |old(backgroundTasks)|
      ensures forall i :: 0 <= i < |backgroundTasks| ==> backgroundTasks[i].Finished?
      ensures var c := CloseStack(old(backgroundTasks), UpTo(|ends|), ends, progress, None);
        backgroundTasks == c.tasks && error == c.error
    {
      ghost var goal := CloseStack(backgroundTasks, exitStack, ends, progress, None);
      CloseStackFinishesAll(backgroundTasks, exitStack, ends, progress, None);
      forall i | 0 <= i < |ends| ensures goal.tasks[i].Finished? { assert exitStack[i] == i; }
      error := None;
      var happening := progress;
      while exitStack != []
        invariant |ends| == |backgroundTasks| == |old(backgroundTasks)| && Indices(exitStack, |backgroundTasks|)
        invariant var c := CloseStack(backgroundTasks, exitStack, ends, happening, error);
          c.tasks == goal.tasks && c.error == goal.error
        decreases |exitStack|
      {
        var i := exitStack[|exitStack| - 1];
        exitStack := exitStack[..|exitStack| - 1];
        var raised := StopTask(i, ends[i], At(happening, 0));
        if raised.Some? {
          error := raised;
        }
        happening := if happening == [] then [] else happening[1..];
      }
    }
  }

  // ----- The benchmark -----

  /** What the surroundings do during one benchmark: which machine's endpoint cannot be saved, whether a hardware fault
      controller runs, what finishes during either wait and in which order the results are asked for, what finishes
      during cleanup, and how cancelled tasks end. */
  datatype Surroundings = Surroundings(
    machines: nat, saveFails: Option<nat>, faultHardware: bool,
    first: Progress, firstInterrupted: bool, firstRank: nat -> nat,
    second: Progress, secondInterrupted: bool, secondRank: nat -> nat,
    ends: nat -> Outcome, cleanup: seq<Progress>)
  {
    predicate SetupFails() { saveFails.Some? && saveFails.value < machines }

    /** The tasks added before the waits, or before the setup failed. */
    function TaskCount(): nat {
      if SetupFails() then saveFails.value else machines + if faultHardware then 1 else 0
    }
  }

  function AllRunning(n: nat): seq<Status> { seq(n, _ => Running) }

  function Ends(end: nat -> Outcome, n: nat): (r: seq<Outcome>)
    ensures |r| == n
  {
    seq(n, i requires 0 <= i => end(i))
  }

  /** The tasks when either wait is over. */
  function AfterFirst(s: Surroundings): seq<Status> { Advance(AllRunning(s.TaskCount()), s.first) }

  function AfterWaits(s: Surroundings): seq<Status> { Advance(AfterFirst(s), s.second) }

  /** There are tasks to wait for and nothing interrupts the waits. */
  predicate Undisturbed(s: Surroundings)
  {
    !s.SetupFails() && s.TaskCount() > 0 && !s.firstInterrupted && !s.secondInterrupted
  }

  /** Both waits go through. */
  ghost predicate WaitsFine(s: Surroundings)
  {
    Undisturbed(s) && PassesFor(AfterFirst(s), s.firstRank) && PassesFor(AfterWaits(s), s.secondRank)
  }

  function CleanedUp(s: Surroundings): Cleaned
  {
    CloseStack(AfterWaits(s), UpTo(s.TaskCount()), Ends(s.ends, s.TaskCount()), s.cleanup, None)
  }

  class Profile {
    var isRunning: bool
    var isSuccessful: bool
    var stopTime: Option<int>

    constructor ()
      ensures isRunning && !isSuccessful && stopTime == None
    {
      isRunning, isSuccessful, stopTime := true, false, None;
    }
  }

  /** The setup loop: one endpoint and one remote session per machine, then the hardware fault controller. */
  method AddSessions(controller: MultiTaskController, s: Surroundings) returns (error: Option<string>)
    requires controller.Valid() && controller.backgroundTasks == []
    modifies controller
    ensures controller.Valid() && controller.backgroundTasks == AllRunning(s.TaskCount())
    ensures error.None? <==> !s.SetupFails()
  {
    for machine := 0 to s.machines
      invariant controller.Valid() && controller.backgroundTasks == AllRunning(machine)
      invariant s.saveFails.Some? ==> machine <= s.saveFails.value
    {
      if s.saveFails == Some(machine) {
        return Some("DatabaseError");
      }
      controller.AddTask();
    }
    if s.faultHardware {
      controller.AddTask();
    }
    return None;
  }

  /** do_benchmark from the creation of the profile on. However the guarded block is left, the profile is not running
      afterwards and all tasks are done; success, a normal return, and undisturbed waits and cleanup coincide. */
  method DoBenchmark(profile: Profile, s: Surroundings, now: int)
      returns (controller: MultiTaskController, error: Option<string>)
    requires profile.isRunning && !profile.isSuccessful
    modifies profile
    ensures fresh(controller)
    ensures !profile.isRunning && profile.stopTime == Some(now)
    ensures |controller.backgroundTasks| == s.TaskCount()
    ensures forall i :: 0 <= i < |controller.backgroundTasks| ==> controller.backgroundTasks[i].Finished?
    ensures profile.isSuccessful <==> error.None?
    ensures profile.isSuccessful <==> Succeeds(s)
    ensures WaitsFine(s) ==> controller.backgroundTasks == CleanedUp(s).tasks
  {
    controller := new MultiTaskController();
    var runSuccessful, finalizeSuccessful := false, false;
    error := AddSessions(controller, s);
    if error.None? {
      error := controller.RunFor(s.first, s.firstInterrupted, s.firstRank);
    }
    if error.None? {
      error := controller.RunFor(s.second, s.secondInterrupted, s.secondRank);
    }
    if error.None? {
      runSuccessful := true;
    }
    assert runSuccessful <==> WaitsFine(s);
    var cleanupError := controller.CancelPendingTasks(Ends(s.ends, |controller.backgroundTasks|), s.cleanup);
    if cleanupError.None? {
      finalizeSuccessful := true;
    } else {
      error := cleanupError;
    }
    profile.isSuccessful := runSuccessful && finalizeSuccessful;
    profile.isRunning := false;
    profile.stopTime := Some(now);
  }

  ghost predicate Succeeds(s: Surroundings) { WaitsFine(s) && CleanedUp(s).error.None? }

  /** No cancelled task raises anything but its cancellation. */
  ghost predicate CleanupQuiet(s: Surroundings) { forall i :: i in CleanedUp(s).stopped ==> s.ends(i).Escaping().None? }

  function Reordered(s: Surroundings, first: nat -> nat, second: nat -> nat): Surroundings
  {
    s.(firstRank := first, secondRank := second)
  }

  /** A benchmark is successful exactly when the setup added at least one task, both waits were undisturbed, in either
      wait every failed task was asked after one that timed out, and every task cancelled afterwards ended by
      cancellation or normally. */
  lemma SuccessCondition(s: Surroundings)
    ensures Succeeds(s) <==> WaitsFine(s) && CleanupQuiet(s)
    ensures forall i :: i in CleanedUp(s).stopped ==> i < s.TaskCount() && AfterWaits(s)[i].Running?
    ensures s.cleanup == [] ==>
      forall i :: 0 <= i < s.TaskCount() && AfterWaits(s)[i].Running? ==> i in CleanedUp(s).stopped
  {
    CloseStackFinishesAll(AfterWaits(s), UpTo(s.TaskCount()), Ends(s.ends, s.TaskCount()), s.cleanup, None);
    if s.cleanup == [] {
      UndisturbedCleanupStopsAll(AfterWaits(s), s.TaskCount(), Ends(s.ends, s.TaskCount()), None);
    }
  }

  lemma FailuresLast(s: Surroundings)
    requires NoneFailed(AfterWaits(s))
    ensures NoneFailed(AfterFirst(s))
  {
    forall i: nat ensures !FailsAt(AfterFirst(s), i) {
      assert !FailsAt(AfterWaits(s), i);
    }
  }

  /** Whatever the order in which results are asked for, the benchmark is successful exactly when the waits are
      undisturbed, no task failed by the end of them, and the cleanup is quiet. In some order it is successful exactly
      when instead after each wait no task had failed or one had timed out: a task that timed out can hide the failure
      of another. */
  lemma SuccessOverAllOrders(s: Surroundings)
    ensures (forall p, q :: Succeeds(Reordered(s, p, q))) <==>
      Undisturbed(s) && NoneFailed(AfterWaits(s)) && CleanupQuiet(s)
    ensures (exists p, q :: Succeeds(Reordered(s, p, q))) <==>
      Undisturbed(s) && MayPass(AfterFirst(s)) && MayPass(AfterWaits(s)) && CleanupQuiet(s)
  {
    var first, after := AfterFirst(s), AfterWaits(s);
    forall p, q
      ensures Succeeds(Reordered(s, p, q)) <==>
        Undisturbed(s) && PassesFor(first, p) && PassesFor(after, q) && CleanupQuiet(s)
    {
      SuccessCondition(Reordered(s, p, q));
      SameCleanup(s, p, q);
    }
    PassingOverAllOrders(first);
    PassingOverAllOrders(after);
    if NoneFailed(after) { FailuresLast(s); }
    if Undisturbed(s) && MayPass(first) && MayPass(after) && CleanupQuiet(s) {
      var p :| PassesFor(first, p);
      var q :| PassesFor(after, q);
      assert Succeeds(Reordered(s, p, q));
    }
    if !NoneFailed(after) {
      var q :| !PassesFor(after, q);
      assert !Succeeds(Reordered(s, s.firstRank, q));
    } else {
      assert Succeeds(Reordered(s, s.firstRank, s.secondRank)) <==> Undisturbed(s) && CleanupQuiet(s);
    }
  }

  lemma SameCleanup(s: Surroundings, p: nat -> nat, q: nat -> nat)
    ensures AfterFirst(Reordered(s, p, q)) == AfterFirst(s) && AfterWaits(Reordered(s, p, q)) == AfterWaits(s)
    ensures CleanedUp(Reordered(s, p, q)) == CleanedUp(s) && (Undisturbed(Reordered(s, p, q)) <==> Undisturbed(s))
  {
  }

  /** When nothing else finishes during cleanup, exactly the tasks still running are cancelled. */
  lemma {:induction false} UndisturbedCleanupStopsAll(tasks: seq<Status>, n: nat, ends: seq<Outcome>,
      pending: Option<string>)
    requires n <= |tasks| == |ends|
    ensures forall i :: 0 <= i < n && tasks[i].Running? ==> i in CloseStack(tasks, UpTo(n), ends, [], pending).stopped
    decreases n
  {
    if n > 0 {
      var (tasks', raised) := Stop(tasks, n - 1, ends[n - 1], map[]);
      assert UpTo(n)[..n - 1] == UpTo(n - 1);
      UndisturbedCleanupStopsAll(tasks', n - 1, ends, if raised.Some? then raised else pending);
      assert forall i :: 0 <= i < n - 1 ==> tasks'[i] == tasks[i];
    }
  }

  // ----- Worker sessions -----

  /** How the task that runs an invocation ends. */
  function EndOf(monitor: Proc.Monitor): Outcome
    requires monitor.phase.Done?
  {
    match monitor.phase.error
    case None => Returned
    case Some(Cancelled) => WasCancelled
    case Some(InvocationFailed) => Raised("InvocationFailedException")
    case Some(TimedOut) => TimedOut
    case Some(OtherError) => Raised("Error")
  }

  /** The remote session of a machine: its return code is checked, and keep_alive is off until something turns it on. */
  const SSH := Proc.Config(true, [0], true)

  /** What happens to a session's monitor task until it ends or is cancelled, and after a cancellation. */
  datatype Session = Session(before: seq<Proc.Event>, after: seq<Proc.Event>)
  {
    function Reached(): Proc.Monitor { Proc.Execute(Proc.Initial(SSH, false), before) }

    function Ended(): Proc.Monitor {
      if Reached().phase.Done? then Reached() else Proc.Execute(Proc.Next(Reached(), Proc.Cancel), after)
    }

    /** Ended by itself with code 0 and nothing else in the way. */
    predicate EndedWell() {
      Ended().finalized && !Ended().keepAliveAtExit && Ended().returnCode == Some(0) && !Proc.Disturbed(Ended())
    }

    /** Cancelled before there was a process, under keep_alive, or ended with code 0, with its output read. */
    predicate StoppedWell() {
      && (Ended().children == [] || Ended().keepAliveAtExit || Ended().returnCode == Some(0))
      && (Proc.Disturbed(Ended()) ==> Ended().phase.error == Some(Proc.Cancelled))
    }

    predicate LaunchTimedOut() { Ended().phase.Done? && Ended().phase.error == Some(Proc.TimedOut) }
  }

  /** The sessions run as described; they come first in the list of tasks, one per machine. Those that end during the
      waits end by themselves, those that are stopped are cancelled. */
  ghost predicate Describes(s: Surroundings, sessions: seq<Session>)
  {
    && |sessions| == Min(s.machines, s.TaskCount())
    && forall i :: 0 <= i < |sessions| ==>
         && (IsFinished(AfterWaits(s), i) ==>
               sessions[i].Reached().phase.Done? && AfterWaits(s)[i].outcome == EndOf(sessions[i].Reached()))
         && (i in CleanedUp(s).stopped ==>
               && !sessions[i].Reached().phase.Done? && sessions[i].Ended().phase.Done?
               && s.ends(i) == EndOf(sessions[i].Ended()))
  }

  lemma FinishedSession(session: Session)
    requires session.Reached().phase.Done?
    ensures EndOf(session.Reached()).Fails() <==> !session.EndedWell() && !session.LaunchTimedOut()
    ensures (forall e :: e in session.before ==> Proc.Ordinary(e)) ==>
      (EndOf(session.Reached()).Fails() <==> session.Reached().returnCode != Some(0))
  {
    Proc.NormalEndIff(SSH, false, session.before);
    Proc.ConfigIsKept(Proc.Initial(SSH, false), session.before);
    if forall e :: e in session.before ==> Proc.Ordinary(e) { Proc.OrdinaryEnd(SSH, false, session.before); }
  }

  lemma CancelledSession(session: Session)
    requires !session.Reached().phase.Done? && session.Ended().phase.Done?
    ensures EndOf(session.Ended()).Escaping().None? <==> session.StoppedWell()
    ensures (forall e :: e in session.after ==> !e.ReaderFailed?) ==>
      (session.StoppedWell() <==>
        session.Ended().children == [] || session.Ended().keepAliveAtExit || session.Ended().returnCode == Some(0))
  {
    Proc.CancelledTaskOutcome(SSH, false, session.before, session.after);
    Proc.ConfigIsKept(Proc.Initial(SSH, false), session.before);
    Proc.NextKeepsConfig(session.Reached(), Proc.Cancel);
    Proc.ConfigIsKept(Proc.Next(session.Reached(), Proc.Cancel), session.after);
  }

  /** Every session that ended during the waits ended well or could not be launched in time, and a fault controller that
      ended did not fail. */
  ghost predicate FinishedWell(s: Surroundings, sessions: seq<Session>)
    requires Describes(s, sessions)
  {
    forall i: nat :: IsFinished(AfterWaits(s), i) ==>
      if i < |sessions| then sessions[i].EndedWell() || sessions[i].LaunchTimedOut() else !FailsAt(AfterWaits(s), i)
  }

  /** Every session that had to be cancelled stopped well, and a cancelled fault controller raised nothing else. */
  ghost predicate AllStoppedWell(s: Surroundings, sessions: seq<Session>)
  {
    forall i :: i in CleanedUp(s).stopped ==>
      if i < |sessions| then sessions[i].StoppedWell() else s.ends(i).Escaping().None?
  }

  /** The exact condition of success in terms of exit codes, for every order of asking for results: one worker that
      exits with another code, or that has to be killed, is enough to make the benchmark unsuccessful in some order. */
  lemma SuccessByExitCodes(s: Surroundings, sessions: seq<Session>)
    requires Describes(s, sessions)
    ensures (forall p, q :: Succeeds(Reordered(s, p, q))) <==>
      Undisturbed(s) && FinishedWell(s, sessions) && AllStoppedWell(s, sessions)
    ensures Succeeds(s) ==> AllStoppedWell(s, sessions)
  {
    SuccessOverAllOrders(s);
    SuccessCondition(s);
    FinishedSessions(s, sessions);
    StoppedSessions(s, sessions);
  }

  lemma FinishedSessions(s: Surroundings, sessions: seq<Session>)
    requires Describes(s, sessions)
    ensures FinishedWell(s, sessions) <==> NoneFailed(AfterWaits(s))
  {
    forall i: nat | IsFinished(AfterWaits(s), i) && i < |sessions|
      ensures FailsAt(AfterWaits(s), i) <==> !(sessions[i].EndedWell() || sessions[i].LaunchTimedOut())
    {
      FinishedSession(sessions[i]);
    }
  }

  lemma StoppedSessions(s: Surroundings, sessions: seq<Session>)
    requires Describes(s, sessions)
    ensures AllStoppedWell(s, sessions) <==> CleanupQuiet(s)
  {
    forall i | i in CleanedUp(s).stopped && i < |sessions|
      ensures s.ends(i).Escaping().None? <==> sessions[i].StoppedWell()
    {
      CancelledSession(sessions[i]);
    }
  }
}
