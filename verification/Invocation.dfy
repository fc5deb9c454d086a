/** Supervision of a child process by its monitor task, as steps between the points where the task waits. */
module ProcessInvocation {
  import opened Sequences

  /** A started child: its return code once it has exited, and the signals sent to it. */
  datatype Child = Child(returnCode: Option<int>, terminated: bool, killed: bool)
  {
    predicate Exited() { returnCode.Some? }

    predicate Settled() { Exited() || killed }
  }

  /** TimedOut: a TimeoutError, which launching the process may raise. OtherError: any other exception. */
  datatype Error = InvocationFailed | Cancelled | TimedOut | OtherError

  /** Where the monitor task stands. Wait phases carry the exception in flight, if any, and whether the
      return code check is skipped. */
  datatype Phase =
    | Starting
    | Communicating
    | AwaitingTermination(inFlight: Option<Error>, skipVerify: bool)
    | AwaitingKill(inFlight: Option<Error>, skipVerify: bool)
    | RestartDelay
    | Done(error: Option<Error>)

  datatype Config = Config(verifyReturnCode: bool, expectedReturnCodes: seq<int>, captureOutput: bool)

  /** finalized: the last child has gone through _terminate; keepAliveAtExit: keep_alive as read just before. */
  datatype Monitor = Monitor(
    config: Config, phase: Phase, children: seq<Child>, output: Option<string>, returnCode: Option<int>,
    shouldRestart: bool, keepAlive: bool, keepAliveAtExit: bool, finalized: bool)
  {
    predicate Alive() { children != [] && !Last().Exited() }

    function Last(): Child
      requires children != []
    {
      children[|children| - 1]
    }

    function SetLast(c: Child): Monitor
      requires children != []
    {
      this.(children := children[|children| - 1 := c])
    }

    /** The return code check of a finalized child fails. */
    predicate Rejected() {
      config.verifyReturnCode && !keepAliveAtExit
        && !(returnCode.Some? && returnCode.value in config.expectedReturnCodes)
    }
  }

  /** Everything that can happen to the task: results of its awaits, the process, and calls from outside. */
  datatype Event =
    | Started
    | StartFailed(error: Error)
    | Line(text: string)
    | ReaderFailed
    | OutputEnded
    | WaitEnded
    | WaitTimedOut
    | DelayOver
    | Cancel
    | ChildExits(code: int)
    | Restart
    | SetKeepAlive(value: bool)

  function Initial(config: Config, keepAlive: bool): Monitor
  {
    Monitor(config, Starting, [], None, None, true, keepAlive, keepAlive, false)
  }

  // ----- The task's code between waits -----

  /** End of _terminate and of the loop body: verify, then raise, delay a restart, or return. */
  function Finalize(s: Monitor, inFlight: Option<Error>, skipVerify: bool): Monitor
    requires s.children != []
  {
    var code := s.Last().returnCode;
    var rejected := s.config.verifyReturnCode && !skipVerify
      && !(code.Some? && code.value in s.config.expectedReturnCodes);
    var error := if rejected then Some(InvocationFailed) else inFlight;
    var next :=
      if error.Some? then Done(error)
      else if s.shouldRestart then RestartDelay
      else Done(None);
    s.(returnCode := code, finalized := true, phase := next)
  }

  /** The finally block after communicating: read keep_alive, then terminate a child that still runs. */
  function BeginTerminate(s: Monitor, inFlight: Option<Error>): Monitor
    requires s.children != []
  {
    var s' := s.(shouldRestart := s.keepAlive, keepAliveAtExit := s.keepAlive);
    if s.Last().Exited() then Finalize(s', inFlight, s.keepAlive)
    else s'.SetLast(s.Last().(terminated := true)).(phase := AwaitingTermination(inFlight, s.keepAlive))
  }

  function KillIfRunning(s: Monitor): Monitor
    requires s.children != []
  {
    if s.Last().Exited() then s else s.SetLast(s.Last().(killed := true))
  }

  function Append(s: Monitor, text: string): Monitor
  {
    if s.config.captureOutput then s.(output := Some((if s.output.Some? then s.output.value else "") + text)) else s
  }

  /** The effect of an event; an event that cannot occur in this phase has none. */
  function Next(s: Monitor, e: Event): Monitor
  {
    match e
    case Started =>
      if !s.phase.Starting? then s else
        s.(phase := Communicating, children := s.children + [Child(None, false, false)], finalized := false,
          output := if s.config.captureOutput && s.output.None? then Some("") else s.output)
    case StartFailed(error) => if s.phase.Starting? then s.(phase := Done(Some(error))) else s
    case Line(text) =>
      if s.phase.Communicating? || s.phase.AwaitingTermination? || s.phase.AwaitingKill? then Append(s, text) else s
    case OutputEnded =>
      // Both readers saw the end of their stream and then waited for the exit.
      if s.phase.Communicating? && s.children != [] && s.Last().Exited() then BeginTerminate(s, None) else s
    case ReaderFailed => Interrupt(s, OtherError)
    case Cancel => Interrupt(s, Cancelled)
    case WaitEnded =>
      if s.children == [] || !s.Last().Exited() then s else AfterWait(s)
    case WaitTimedOut => if s.children == [] then s else AfterWait(s)
    case DelayOver =>
      if !s.phase.RestartDelay? then s
      else if s.shouldRestart then s.(phase := Starting)
      else s.(phase := Done(None))
    case ChildExits(code) => if s.Alive() then s.SetLast(s.Last().(returnCode := Some(code))) else s
    case Restart => (if s.Alive() then s.SetLast(s.Last().(killed := true)) else s).(shouldRestart := true)
    case SetKeepAlive(value) => s.(keepAlive := value)
  }

  /** The shutdown wait is over: kill what still runs and wait again, or finish. */
  function AfterWait(s: Monitor): Monitor
    requires s.children != []
  {
    match s.phase
    case AwaitingTermination(inFlight, skip) => KillIfRunning(s).(phase := AwaitingKill(inFlight, skip))
    case AwaitingKill(inFlight, skip) => Finalize(s, inFlight, skip)
    case _ => s
  }

  /** An exception raised at the point where the task waits. */
  function Interrupt(s: Monitor, error: Error): Monitor
  {
    match s.phase
    case Starting => if error.Cancelled? then s.(phase := Done(Some(error))) else s
    case RestartDelay => if error.Cancelled? then s.(phase := Done(Some(error))) else s
    case Communicating => if s.children == [] then s else BeginTerminate(s, Some(error))
    case AwaitingTermination(_, skip) => if s.children == [] then s else Finalize(KillIfRunning(s), Some(error), skip)
    case AwaitingKill(_, skip) => if s.children == [] then s else Finalize(s, Some(error), skip)
    case Done(_) => s
  }

  function Execute(s: Monitor, events: seq<Event>): Monitor
    decreases |events|
  {
    if events == [] then s else Execute(Next(s, events[0]), events[1..])
  }

  // ----- Child-process safety -----

  ghost predicate Safe(s: Monitor)
  {
    && (forall i :: 0 <= i < |s.children| - 1 ==> s.children[i].Exited())
    && (match s.phase
        case Starting => (s.children == [] || (s.Last().Exited() && s.finalized)) && (s.finalized ==> s.keepAliveAtExit)
        case Communicating => s.children != []
        case AwaitingTermination(inFlight, skip) =>
          s.children != [] && inFlight.Some? && skip == s.keepAliveAtExit && (s.Last().Exited() || s.Last().terminated)
        case AwaitingKill(inFlight, skip) =>
          s.children != [] && inFlight.Some? && skip == s.keepAliveAtExit && s.Last().Settled()
        case RestartDelay =>
          s.children != [] && s.Last().Exited() && s.finalized && s.shouldRestart && s.keepAliveAtExit
        case Done(error) => s.children == [] || s.Last().Settled())
    && (s.phase.Done? && s.phase.error.None? ==>
          && s.children != [] && s.finalized && s.Last().Exited() && s.returnCode == s.Last().returnCode
          && !s.keepAliveAtExit && !s.Rejected())
    && (s.phase.Done? && s.finalized && !s.keepAliveAtExit ==>
      (s.Rejected() <==> s.phase.error == Some(InvocationFailed)))
  }

  lemma FinalizeIsSafe(s: Monitor, inFlight: Option<Error>)
    requires s.children != [] && s.Last().Settled() && inFlight != Some(InvocationFailed)
    requires forall i :: 0 <= i < |s.children| - 1 ==> s.children[i].Exited()
    requires inFlight.None? ==> s.Last().Exited() && s.shouldRestart == s.keepAliveAtExit
    ensures Safe(Finalize(s, inFlight, s.keepAliveAtExit))
  {
  }

  lemma BeginTerminateIsSafe(s: Monitor, inFlight: Option<Error>)
    requires Safe(s) && s.children != [] && inFlight != Some(InvocationFailed)
    requires inFlight.None? ==> s.Last().Exited()
    ensures Safe(BeginTerminate(s, inFlight))
  {
    if s.Last().Exited() {
      FinalizeIsSafe(s.(shouldRestart := s.keepAlive, keepAliveAtExit := s.keepAlive), inFlight);
    }
  }

  lemma KillSettles(s: Monitor)
    requires s.children != []
    ensures var n := KillIfRunning(s);
      && |n.children| == |s.children| && n.Last().Settled() && n.keepAliveAtExit == s.keepAliveAtExit
      && forall i :: 0 <= i < |s.children| - 1 ==> n.children[i] == s.children[i]
  {
  }

  /** Exceptions in flight come from cancellation or from the readers. */
  ghost predicate InFlightKnown(s: Monitor)
  {
    (s.phase.AwaitingTermination? || s.phase.AwaitingKill?) ==>
      s.phase.inFlight != Some(InvocationFailed) && s.phase.inFlight != Some(TimedOut)
  }

  lemma InterruptIsSafe(s: Monitor, error: Error)
    requires Safe(s) && InFlightKnown(s) && error != InvocationFailed && error != TimedOut
    ensures Safe(Interrupt(s, error)) && InFlightKnown(Interrupt(s, error))
  {
    match s.phase {
      case Communicating => BeginTerminateIsSafe(s, Some(error));
      case AwaitingTermination(_, _) =>
        KillSettles(s);
        FinalizeIsSafe(KillIfRunning(s), Some(error));
      case AwaitingKill(_, _) => FinalizeIsSafe(s, Some(error));
      case _ =>
    }
  }

  lemma AfterWaitIsSafe(s: Monitor)
    requires Safe(s) && InFlightKnown(s) && s.children != []
    ensures Safe(AfterWait(s)) && InFlightKnown(AfterWait(s))
  {
    match s.phase {
      case AwaitingKill(inFlight, _) => FinalizeIsSafe(s, inFlight);
      case _ =>
    }
  }

  lemma OutsideEventIsSafe(s: Monitor, e: Event)
    requires Safe(s) && InFlightKnown(s) && (e.ChildExits? || e.Restart? || e.SetKeepAlive? || e.Line?)
    ensures Safe(Next(s, e)) && InFlightKnown(Next(s, e))
  {
  }

  lemma NextIsSafe(s: Monitor, e: Event)
    requires Safe(s) && InFlightKnown(s)
    ensures Safe(Next(s, e)) && InFlightKnown(Next(s, e))
  {
    match e {
      case OutputEnded =>
        if s.phase.Communicating? && s.Last().Exited() { BeginTerminateIsSafe(s, None); }
      case ReaderFailed => InterruptIsSafe(s, OtherError);
      case Cancel => InterruptIsSafe(s, Cancelled);
      case WaitEnded => if s.children != [] { AfterWaitIsSafe(s); }
      case WaitTimedOut => if s.children != [] { AfterWaitIsSafe(s); }
      case Started =>
      case StartFailed(_) =>
      case DelayOver =>
      case _ => OutsideEventIsSafe(s, e);
    }
  }

  lemma {:induction false} RunIsSafe(s: Monitor, events: seq<Event>)
    requires Safe(s) && InFlightKnown(s)
    ensures Safe(Execute(s, events)) && InFlightKnown(Execute(s, events))
    decreases |events|
  {
    if events != [] {
      NextIsSafe(s, events[0]);
      RunIsSafe(Next(s, events[0]), events[1..]);
    }
  }

  /** Child-process safety over every run: whenever a child is started all earlier ones have exited; when the task ends
      every child has exited or was sent kill; a normal end means keep_alive was off at the last exit and the return
      code was accepted or unchecked; and after a checked exit the task fails exactly when the code was not accepted. */
  lemma ChildProcessSafety(config: Config, keepAlive: bool, events: seq<Event>)
    ensures var f := Execute(Initial(config, keepAlive), events);
      && (forall i :: 0 <= i < |f.children| - 1 ==> f.children[i].Exited())
      && (f.phase.Starting? || f.phase.RestartDelay? ==> forall c :: c in f.children ==> c.Exited())
      && (f.phase.Done? ==> forall c :: c in f.children ==> c.Settled())
      && (f.phase == Done(None) ==>
            !f.keepAliveAtExit && f.children != [] && f.returnCode == f.Last().returnCode && f.returnCode.Some?
            && (config.verifyReturnCode ==> f.returnCode.value in config.expectedReturnCodes))
      && (f.phase.Done? && f.finalized && !f.keepAliveAtExit ==>
            (f.phase.error == Some(InvocationFailed) <==> f.Rejected()))
  {
    var s := Initial(config, keepAlive);
    RunIsSafe(s, events);
    ConfigIsKept(s, events);
  }

  ghost predicate SameRecord(s: Monitor, n: Monitor)
  {
    n.config == s.config && n.output == s.output && n.keepAlive == s.keepAlive && |n.children| == |s.children|
  }

  lemma FinalizeKeeps(s: Monitor, inFlight: Option<Error>, skip: bool)
    requires s.children != []
    ensures SameRecord(s, Finalize(s, inFlight, skip))
    ensures var p := Finalize(s, inFlight, skip).phase;
      p.Done? || (p.RestartDelay? && inFlight.None? && s.shouldRestart)
  {
  }

  lemma KillKeeps(s: Monitor)
    requires s.children != []
    ensures SameRecord(s, KillIfRunning(s))
  {
  }

  lemma BeginTerminateKeeps(s: Monitor, inFlight: Option<Error>)
    requires s.children != []
    ensures SameRecord(s, BeginTerminate(s, inFlight))
  {
    FinalizeKeeps(s.(shouldRestart := s.keepAlive, keepAliveAtExit := s.keepAlive), inFlight, s.keepAlive);
  }

  lemma InterruptKeeps(s: Monitor, error: Error)
    ensures SameRecord(s, Interrupt(s, error))
  {
    match s.phase {
      case Communicating => if s.children != [] { BeginTerminateKeeps(s, Some(error)); }
      case AwaitingTermination(_, skip) =>
        if s.children != [] {
          KillKeeps(s);
          FinalizeKeeps(KillIfRunning(s), Some(error), skip);
        }
      case AwaitingKill(_, skip) => if s.children != [] { FinalizeKeeps(s, Some(error), skip); }
      case _ =>
    }
  }

  lemma AfterWaitKeeps(s: Monitor)
    requires s.children != []
    ensures SameRecord(s, AfterWait(s))
  {
    match s.phase {
      case AwaitingKill(inFlight, skip) => FinalizeKeeps(s, inFlight, skip);
      case _ =>
    }
  }

  lemma NextKeepsConfig(s: Monitor, e: Event)
    ensures Next(s, e).config == s.config
  {
    match e {
      case OutputEnded => if s.children != [] { BeginTerminateKeeps(s, None); }
      case ReaderFailed => InterruptKeeps(s, OtherError);
      case Cancel => InterruptKeeps(s, Cancelled);
      case WaitEnded => if s.children != [] { AfterWaitKeeps(s); }
      case WaitTimedOut => if s.children != [] { AfterWaitKeeps(s); }
      case _ =>
    }
  }

  lemma {:induction false} ConfigIsKept(s: Monitor, events: seq<Event>)
    ensures Execute(s, events).config == s.config
    decreases |events|
  {
    if events != [] {
      NextKeepsConfig(s, events[0]);
      ConfigIsKept(Next(s, events[0]), events[1..]);
    }
  }

  predicate Reading(s: Monitor) { s.phase.Communicating? || s.phase.AwaitingTermination? || s.phase.AwaitingKill? }

  function Text(output: Option<string>): string { if output.Some? then output.value else "" }

  /** What an event adds to the captured output. */
  function Heard(s: Monitor, e: Event): string
  {
    if e.Line? && Reading(s) && s.config.captureOutput then e.text else ""
  }

  function HeardInAll(s: Monitor, events: seq<Event>): string
    decreases |events|
  {
    if events == [] then "" else Heard(s, events[0]) + HeardInAll(Next(s, events[0]), events[1..])
  }

  lemma NextOutput(s: Monitor, e: Event)
    ensures Text(Next(s, e).output) == Text(s.output) + Heard(s, e)
    ensures s.output.Some? ==> Next(s, e).output.Some?
  {
    match e {
      case OutputEnded => if s.children != [] { BeginTerminateKeeps(s, None); }
      case ReaderFailed => InterruptKeeps(s, OtherError);
      case Cancel => InterruptKeeps(s, Cancelled);
      case WaitEnded => if s.children != [] { AfterWaitKeeps(s); }
      case WaitTimedOut => if s.children != [] { AfterWaitKeeps(s); }
      case _ =>
    }
  }

  /** Captured output is everything read in every phase, in order; nothing is ever taken back, restarts included. */
  lemma {:induction false} OutputIsEverythingHeard(s: Monitor, events: seq<Event>)
    ensures Text(Execute(s, events).output) == Text(s.output) + HeardInAll(s, events)
    ensures s.output.Some? ==> Execute(s, events).output.Some?
    decreases |events|
  {
    if events != [] {
      NextOutput(s, events[0]);
      OutputIsEverythingHeard(Next(s, events[0]), events[1..]);
      ConcatAssociates(Text(s.output), Heard(s, events[0]), HeardInAll(Next(s, events[0]), events[1..]));
    }
  }

  // ----- When a further child is started -----

  /** The child exited by itself and both readers are about to see it, with keep_alive on. */
  predicate RestartsAfter(s: Monitor, e: Event)
  {
    e.OutputEnded? && s.phase.Communicating? && s.children != [] && s.Last().Exited() && s.keepAlive
  }

  /** While starting a process: it is started before anything prevents it. */
  predicate Launches(events: seq<Event>)
  {
    events != [] && (events[0].Started? || (!events[0].StartFailed? && !events[0].Cancel? && Launches(events[1..])))
  }

  /** During the restart delay: it runs out before a cancellation, and the start goes through. */
  predicate DelayPasses(events: seq<Event>)
  {
    events != [] && !events[0].Cancel? &&
      if events[0].DelayOver? then Launches(events[1..]) else DelayPasses(events[1..])
  }

  /** How often a run restarts: undisturbed exits with keep_alive on whose restart is not prevented afterwards. */
  function Restarts(s: Monitor, events: seq<Event>): nat
    decreases |events|
  {
    if events == [] then 0 else
      (if RestartsAfter(s, events[0]) && DelayPasses(events[1..]) then 1 else 0)
        + Restarts(Next(s, events[0]), events[1..])
  }

  /** A start that is already under way. */
  predicate StartDue(s: Monitor, events: seq<Event>)
  {
    (s.phase.Starting? && Launches(events)) || (s.phase.RestartDelay? && DelayPasses(events))
  }

  lemma EndOfChild(s: Monitor, e: Event)
    requires Safe(s) && (s.phase.Communicating? || s.phase.AwaitingTermination? || s.phase.AwaitingKill?)
    ensures |Next(s, e).children| == |s.children| && !Next(s, e).phase.Starting?
    ensures Next(s, e).phase.RestartDelay? <==> RestartsAfter(s, e)
  {
    match e {
      case OutputEnded => BeginTerminateKeeps(s, None);
      case ReaderFailed => InterruptKeeps(s, OtherError);
      case Cancel => InterruptKeeps(s, Cancelled);
      case WaitEnded => AfterWaitKeeps(s);
      case WaitTimedOut => AfterWaitKeeps(s);
      case _ =>
    }
  }

  lemma StepStarts(s: Monitor, e: Event, events: seq<Event>)
    requires Safe(s) && InFlightKnown(s)
    ensures |s.children| + (if StartDue(s, [e] + events) then 1 else 0)
      + (if RestartsAfter(s, e) && DelayPasses(events) then 1 else 0)
         == |Next(s, e).children| + if StartDue(Next(s, e), events) then 1 else 0
  {
    assert ([e] + events)[1..] == events;
    if s.phase.Communicating? || s.phase.AwaitingTermination? || s.phase.AwaitingKill? {
      EndOfChild(s, e);
    }
  }

  /** Over every run, the number of children is that of the starts under way plus the restarts: after the first child
      there is a further one exactly for every undisturbed exit with keep_alive on whose delay and start are neither
      cancelled nor fail. */
  lemma {:induction false} ChildrenAreCounted(s: Monitor, events: seq<Event>)
    requires Safe(s) && InFlightKnown(s)
    ensures |Execute(s, events).children| == |s.children| + (if StartDue(s, events) then 1 else 0) + Restarts(s, events)
    decreases |events|
  {
    if events != [] {
      assert events == [events[0]] + events[1..];
      StepStarts(s, events[0], events[1..]);
      NextIsSafe(s, events[0]);
      ChildrenAreCounted(Next(s, events[0]), events[1..]);
    }
  }

  /** Once nothing can lead to a start any more, there are no restarts. */
  lemma {:induction false} NoRestartsLeft(s: Monitor, events: seq<Event>)
    requires Safe(s) && InFlightKnown(s) && !StartDue(s, events)
    requires s.phase.Starting? || s.phase.RestartDelay? || s.phase.Done?
    ensures Restarts(s, events) == 0
    decreases |events|
  {
    if events != [] {
      NextIsSafe(s, events[0]);
      NoRestartsLeft(Next(s, events[0]), events[1..]);
    }
  }

  /** From any point of any run at which the child has exited by itself, a further child is started exactly when
      keep_alive is on and nothing prevents the restart; without keep_alive the task is over, whatever restart() was
      asked for. */
  lemma FurtherChildIff(config: Config, keepAlive: bool, before: seq<Event>, after: seq<Event>)
    requires var s := Execute(Initial(config, keepAlive), before);
      s.phase.Communicating? && s.children != [] && !s.Alive()
    ensures var s := Execute(Initial(config, keepAlive), before); var n := Next(s, OutputEnded);
      && (n.phase.RestartDelay? <==> s.keepAlive) && (n.phase.Done? <==> !s.keepAlive)
      && (|Execute(n, after).children| > |s.children| <==> s.keepAlive && DelayPasses(after))
  {
    var s := Execute(Initial(config, keepAlive), before);
    RunIsSafe(Initial(config, keepAlive), before);
    NextIsSafe(s, OutputEnded);
    EndOfChild(s, OutputEnded);
    var n := Next(s, OutputEnded);
    FinalizeKeeps(s.(shouldRestart := s.keepAlive, keepAliveAtExit := s.keepAlive), None, s.keepAlive);
    ChildrenAreCounted(n, after);
    if !(s.keepAlive && DelayPasses(after)) { NoRestartsLeft(n, after); }
  }

  lemma NextKeepAlive(s: Monitor, e: Event)
    ensures Next(s, e).keepAlive == if e.SetKeepAlive? then e.value else s.keepAlive
  {
    match e {
      case OutputEnded => if s.children != [] { BeginTerminateKeeps(s, None); }
      case ReaderFailed => InterruptKeeps(s, OtherError);
      case Cancel => InterruptKeeps(s, Cancelled);
      case WaitEnded => if s.children != [] { AfterWaitKeeps(s); }
      case WaitTimedOut => if s.children != [] { AfterWaitKeeps(s); }
      case _ =>
    }
  }

  lemma {:induction false} OnlyKeepAliveRestarts(s: Monitor, events: seq<Event>)
    requires !s.keepAlive && forall e :: e in events && e.SetKeepAlive? ==> !e.value
    ensures Restarts(s, events) == 0
    decreases |events|
  {
    if events != [] {
      assert events[0] in events;
      NextKeepAlive(s, events[0]);
      OnlyKeepAliveRestarts(Next(s, events[0]), events[1..]);
    }
  }

  /** While keep_alive stays off there is at most one child: restart() cannot bring up a second one. */
  lemma NoSecondChildWithoutKeepAlive(config: Config, events: seq<Event>)
    requires forall e :: e in events && e.SetKeepAlive? ==> !e.value
    ensures |Execute(Initial(config, false), events).children| <= 1
  {
    OnlyKeepAliveRestarts(Initial(config, false), events);
    ChildrenAreCounted(Initial(config, false), events);
  }

  /** The run of test_process_restart: restart() kills the child, and instead of a second start the task fails. */
  lemma RestartEndsTheTask(expected: seq<int>, code: int)
    requires code !in expected
    ensures var f := Execute(Initial(Config(true, expected, true), false),
      [Started, Restart, ChildExits(code), OutputEnded]);
      f.phase == Done(Some(InvocationFailed)) && |f.children| == 1 && f.output == Some("")
  {
    var s1 := Next(Initial(Config(true, expected, true), false), Started);
    var s2 := Next(s1, Restart);
    var s3 := Next(s2, ChildExits(code));
    var s4 := Next(s3, OutputEnded);
    ExecuteFirst(Initial(Config(true, expected, true), false), Started, [Restart, ChildExits(code), OutputEnded]);
    ExecuteFirst(s1, Restart, [ChildExits(code), OutputEnded]);
    ExecuteFirst(s2, ChildExits(code), [OutputEnded]);
    ExecuteFirst(s3, OutputEnded, []);
    assert [Started, Restart, ChildExits(code), OutputEnded] == [Started] + [Restart, ChildExits(code), OutputEnded];
  }

  lemma ExecuteFirst(s: Monitor, e: Event, events: seq<Event>)
    ensures Execute(s, [e] + events) == Execute(Next(s, e), events)
  {
    assert ([e] + events)[1..] == events;
  }

  /** An exception is in flight, so the task can only head for its end. */
  ghost predicate ShuttingDown(s: Monitor)
  {
    match s.phase
    case AwaitingTermination(inFlight, _) => inFlight.Some? && s.children != []
    case AwaitingKill(inFlight, _) => inFlight.Some? && s.children != []
    case Done(_) => true
    case _ => false
  }

  /** How many more shutdown waits can still time out. */
  function WaitsLeft(s: Monitor): nat
  {
    match s.phase
    case Done(_) => 0
    case AwaitingKill(_, _) => 1
    case _ => 2
  }

  predicate IsTimeout(e: Event) { e.WaitTimedOut? }

  lemma ShutdownProceeds(s: Monitor, e: Event)
    requires ShuttingDown(s)
    ensures ShuttingDown(Next(s, e)) && WaitsLeft(Next(s, e)) <= WaitsLeft(s)
    ensures e.WaitTimedOut? && WaitsLeft(s) > 0 ==> WaitsLeft(Next(s, e)) < WaitsLeft(s)
  {
    match e {
      case OutputEnded => if s.children != [] { BeginTerminateKeeps(s, None); }
      case _ =>
    }
  }

  lemma {:induction false} ShutdownTakesTwoWaits(s: Monitor, events: seq<Event>)
    requires ShuttingDown(s) && Count(events, IsTimeout) >= WaitsLeft(s)
    ensures Execute(s, events).phase.Done?
    decreases |events|
  {
    if events != [] {
      ShutdownProceeds(s, events[0]);
      ShutdownTakesTwoWaits(Next(s, events[0]), events[1..]);
    }
  }

  lemma FinalizeEnds(s: Monitor, error: Error, skip: bool)
    requires s.children != []
    ensures Finalize(s, Some(error), skip).phase.Done?
  {
  }

  lemma BeginTerminateShutsDown(s: Monitor, error: Error)
    requires s.children != []
    ensures ShuttingDown(BeginTerminate(s, Some(error)))
  {
    FinalizeEnds(s.(shouldRestart := s.keepAlive, keepAliveAtExit := s.keepAlive), error, s.keepAlive);
  }

  lemma CancelShutsDown(s: Monitor)
    requires Safe(s)
    ensures ShuttingDown(Next(s, Cancel))
  {
    match s.phase {
      case Communicating => BeginTerminateShutsDown(s, Cancelled);
      case AwaitingTermination(_, skip) => FinalizeEnds(KillIfRunning(s), Cancelled, skip);
      case AwaitingKill(_, skip) => FinalizeEnds(s, Cancelled, skip);
      case _ =>
    }
  }

  /** Every cancelled run ends: whatever else happens after the cancellation, two shutdown timeouts later the task is
      done, and its children have exited or were sent kill. */
  lemma CancelledRunsEnd(config: Config, keepAlive: bool, before: seq<Event>, after: seq<Event>)
    requires Count(after, IsTimeout) >= 2
    ensures var f := Execute(Next(Execute(Initial(config, keepAlive), before), Cancel), after);
      f.phase.Done? && forall c :: c in f.children ==> c.Settled()
  {
    var s := Execute(Initial(config, keepAlive), before);
    RunIsSafe(Initial(config, keepAlive), before);
    NextIsSafe(s, Cancel);
    CancelShutsDown(s);
    ShutdownTakesTwoWaits(Next(s, Cancel), after);
    RunIsSafe(Next(s, Cancel), after);
  }

  /** Shutting down after a cancellation: the task fails exactly when it had a child whose return code is rejected. */
  ghost predicate Settling(s: Monitor)
  {
    && Safe(s) && InFlightKnown(s) && ShuttingDown(s)
    && (s.phase.Done? ==>
          && s.phase.error.Some? && s.phase.error != Some(TimedOut)
          && (s.phase.error == Some(InvocationFailed) <==> s.children != [] && s.Rejected()))
  }

  lemma CancelSettles(s: Monitor)
    requires Safe(s) && InFlightKnown(s) && !s.phase.Done?
    ensures Settling(Next(s, Cancel))
  {
    NextIsSafe(s, Cancel);
    CancelShutsDown(s);
  }

  lemma SettlingProceeds(s: Monitor, e: Event)
    requires Settling(s)
    ensures Settling(Next(s, e))
  {
    NextIsSafe(s, e);
    ShutdownProceeds(s, e);
  }

  lemma {:induction false} SettlingRuns(s: Monitor, events: seq<Event>)
    requires Settling(s)
    ensures Settling(Execute(s, events))
    decreases |events|
  {
    if events != [] {
      SettlingProceeds(s, events[0]);
      SettlingRuns(Next(s, events[0]), events[1..]);
    }
  }

  /** Nothing but the cancellation is in flight. */
  predicate OnlyCancelled(s: Monitor)
  {
    match s.phase
    case AwaitingTermination(inFlight, _) => inFlight == Some(Cancelled)
    case AwaitingKill(inFlight, _) => inFlight == Some(Cancelled)
    case Done(error) => error == Some(Cancelled) || error == Some(InvocationFailed)
    case _ => false
  }

  lemma FinalizeCancelled(s: Monitor, skip: bool)
    requires s.children != []
    ensures OnlyCancelled(Finalize(s, Some(Cancelled), skip))
  {
  }

  lemma OnlyCancelledProceeds(s: Monitor, e: Event)
    requires OnlyCancelled(s) && !e.ReaderFailed?
    ensures OnlyCancelled(Next(s, e))
  {
    if s.children != [] && !s.phase.Done? {
      FinalizeCancelled(s, s.phase.skipVerify);
      FinalizeCancelled(KillIfRunning(s), s.phase.skipVerify);
    }
    match e {
      case OutputEnded =>
      case Cancel =>
      case WaitEnded =>
      case WaitTimedOut =>
      case _ =>
    }
  }

  lemma {:induction false} OnlyCancelledRuns(s: Monitor, events: seq<Event>)
    requires OnlyCancelled(s) && forall e :: e in events ==> !e.ReaderFailed?
    ensures OnlyCancelled(Execute(s, events))
    decreases |events|
  {
    if events != [] {
      assert events[0] in events;
      OnlyCancelledProceeds(s, events[0]);
      OnlyCancelledRuns(Next(s, events[0]), events[1..]);
    }
  }

  /** How a cancelled task ends, for any run before and any events after the cancellation: as InvocationFailed exactly
      when it had a child whose return code is checked and not accepted, terminated and killed children included;
      otherwise as cancelled, unless reading the output of the terminated child fails. */
  lemma CancelledTaskOutcome(config: Config, keepAlive: bool, before: seq<Event>, after: seq<Event>)
    requires !Execute(Initial(config, keepAlive), before).phase.Done?
    requires Execute(Next(Execute(Initial(config, keepAlive), before), Cancel), after).phase.Done?
    ensures var f := Execute(Next(Execute(Initial(config, keepAlive), before), Cancel), after);
      && f.phase.error.Some? && f.phase.error != Some(TimedOut)
      && (f.phase.error == Some(InvocationFailed) <==> f.children != [] && f.Rejected())
      && ((forall e :: e in after ==> !e.ReaderFailed?) ==>
            f.phase.error == Some(if f.children != [] && f.Rejected() then InvocationFailed else Cancelled))
  {
    var s := Execute(Initial(config, keepAlive), before);
    RunIsSafe(Initial(config, keepAlive), before);
    CancelledFrom(s, after);
  }

  lemma CancelledFrom(s: Monitor, after: seq<Event>)
    requires Safe(s) && InFlightKnown(s) && !s.phase.Done?
    ensures Settling(Execute(Next(s, Cancel), after))
    ensures (forall e :: e in after ==> !e.ReaderFailed?) ==> OnlyCancelled(Execute(Next(s, Cancel), after))
  {
    CancelSettles(s);
    SettlingRuns(Next(s, Cancel), after);
    if forall e :: e in after ==> !e.ReaderFailed? {
      CancelIsOnlyCancelled(s);
      OnlyCancelledRuns(Next(s, Cancel), after);
    }
  }

  lemma CancelIsOnlyCancelled(s: Monitor)
    requires Safe(s) && !s.phase.Done?
    ensures OnlyCancelled(Next(s, Cancel))
  {
    match s.phase {
      case Communicating =>
        FinalizeCancelled(s.(shouldRestart := s.keepAlive, keepAliveAtExit := s.keepAlive), s.keepAlive);
      case AwaitingTermination(_, skip) => FinalizeCancelled(KillIfRunning(s), skip);
      case AwaitingKill(_, skip) => FinalizeCancelled(s, skip);
      case _ =>
    }
  }

  /** Something other than the return code ended the task. */
  predicate Disturbed(s: Monitor)
  {
    s.phase.Done? && s.phase.error.Some? && s.phase.error != Some(InvocationFailed)
  }

  /** How any task ends: it returns normally exactly when its last child went through the shutdown code with keep_alive
      off and an accepted or unchecked code, and nothing else ended it. */
  lemma NormalEndIff(config: Config, keepAlive: bool, events: seq<Event>)
    requires Execute(Initial(config, keepAlive), events).phase.Done?
    ensures var f := Execute(Initial(config, keepAlive), events);
      f.phase.error.None? <==> f.finalized && !f.keepAliveAtExit && !f.Rejected() && !Disturbed(f)
  {
    RunIsSafe(Initial(config, keepAlive), events);
  }

  /** The launch, the readers and the callers do nothing out of the ordinary. */
  predicate Ordinary(e: Event) { !e.StartFailed? && !e.ReaderFailed? && !e.Cancel? }

  ghost predicate OrdinaryRun(s: Monitor)
  {
    && Safe(s) && InFlightKnown(s) && !s.phase.AwaitingTermination? && !s.phase.AwaitingKill?
    && (s.phase.Done? ==> s.finalized && !s.keepAliveAtExit && !Disturbed(s))
  }

  lemma OrdinaryProceeds(s: Monitor, e: Event)
    requires OrdinaryRun(s) && Ordinary(e)
    ensures OrdinaryRun(Next(s, e))
  {
    NextIsSafe(s, e);
    match e {
      case OutputEnded =>
        if s.children != [] {
          FinalizeKeeps(s.(shouldRestart := s.keepAlive, keepAliveAtExit := s.keepAlive), None, s.keepAlive);
        }
      case DelayOver =>
      case _ =>
    }
  }

  lemma {:induction false} OrdinaryRuns(s: Monitor, events: seq<Event>)
    requires OrdinaryRun(s) && forall e :: e in events ==> Ordinary(e)
    ensures OrdinaryRun(Execute(s, events))
    decreases |events|
  {
    if events != [] {
      assert events[0] in events;
      OrdinaryProceeds(s, events[0]);
      OrdinaryRuns(Next(s, events[0]), events[1..]);
    }
  }

  /** An ordinary run that is over returned normally or failed, the latter exactly when its code was rejected. */
  lemma OrdinaryEnd(config: Config, keepAlive: bool, events: seq<Event>)
    requires Execute(Initial(config, keepAlive), events).phase.Done? && forall e :: e in events ==> Ordinary(e)
    ensures var f := Execute(Initial(config, keepAlive), events);
      && f.finalized && !f.keepAliveAtExit
      && f.phase.error == if f.Rejected() then Some(InvocationFailed) else None
  {
    OrdinaryRuns(Initial(config, keepAlive), events);
  }

  // ----- The object -----

  class Invocation {
    const config: Config
    var phase: Phase
    var children: seq<Child>
    var output: Option<string>
    var returnCode: Option<int>
    var shouldRestartProcess: bool
    var keepAlive: bool
    ghost var keepAliveAtExit: bool
    ghost var finalized: bool

    ghost function State(): Monitor
      reads this
    {
      Monitor(config, phase, children, output, returnCode, shouldRestartProcess, keepAlive, keepAliveAtExit, finalized)
    }

    /** run_as_task: the monitor task starts at the top of its loop. */
    constructor (config: Config, keepAlive: bool)
      ensures State() == Initial(config, keepAlive)
    {
      this.config, this.keepAlive := config, keepAlive;
      phase, children, output, returnCode, shouldRestartProcess := Starting, [], None, None, true;
      keepAliveAtExit, finalized := keepAlive, false;
    }

    method Start()
      requires phase.Starting?
      modifies this
      ensures State() == Next(old(State()), Started)
    {
      children := children + [Child(None, false, false)];
      if config.captureOutput && output.None? {
        output := Some("");
      }
      finalized := false;
      phase := Communicating;
    }

    method ReadLine(line: string)
      requires phase.Communicating? || phase.AwaitingTermination? || phase.AwaitingKill?
      modifies this`output
      ensures State() == Next(old(State()), Line(line))
    {
      if config.captureOutput {
        output := Some((if output.Some? then output.value else "") + line);
      }
    }

    method Kill()
      requires children != []
      modifies this`children
      ensures State() == KillIfRunning(old(State()))
    {
      var process := children[|children| - 1];
      if process.returnCode.None? {
        children := children[|children| - 1 := process.(killed := true)];
      }
    }

    /** The outer finally block of _terminate, and what follows it in _run. */
    method Finish(inFlight: Option<Error>, skipVerifyReturnCode: bool)
      requires children != []
      modifies this
      ensures State() == Finalize(old(State()), inFlight, skipVerifyReturnCode)
    {
      returnCode := children[|children| - 1].returnCode;
      finalized := true;
      if config.verifyReturnCode && !skipVerifyReturnCode
         && !(returnCode.Some? && returnCode.value in config.expectedReturnCodes) {
        phase := Done(Some(InvocationFailed));
      } else if inFlight.Some? {
        phase := Done(inFlight);
      } else if shouldRestartProcess {
        phase := RestartDelay;
      } else {
        phase := Done(None);
      }
    }

    /** The finally block of _run, entered when communicating ends or is interrupted. */
    method Terminate(inFlight: Option<Error>)
      requires children != []
      modifies this
      ensures State() == BeginTerminate(old(State()), inFlight)
    {
      shouldRestartProcess := keepAlive;
      keepAliveAtExit := keepAlive;
      var process := children[|children| - 1];
      if process.returnCode.None? {
        children := children[|children| - 1 := process.(terminated := true)];
        phase := AwaitingTermination(inFlight, shouldRestartProcess);
      } else {
        Finish(inFlight, shouldRestartProcess);
      }
    }

    /** A shutdown wait ended or timed out. */
    method ContinueTermination()
      requires children != []
      modifies this
      ensures State() == AfterWait(old(State()))
    {
      match phase {
        case AwaitingTermination(inFlight, skip) =>
          Kill();
          phase := AwaitingKill(inFlight, skip);
        case AwaitingKill(inFlight, skip) => Finish(inFlight, skip);
        case _ =>
      }
    }

    /** An exception raised at the point where the task waits. */
    method Raise(error: Error)
      requires phase.Communicating? || phase.AwaitingTermination? || phase.AwaitingKill? ==> children != []
      modifies this
      ensures State() == Interrupt(old(State()), error)
    {
      match phase {
        case Communicating => Terminate(Some(error));
        case AwaitingTermination(_, skip) =>
          Kill();
          Finish(Some(error), skip);
        case AwaitingKill(_, skip) => Finish(Some(error), skip);
        case Done(_) =>
        case _ =>
          if error.Cancelled? {
            phase := Done(Some(error));
          }
      }
    }

    /** Kills a running child; the flag it sets is overwritten before anyone reads it. raised: RuntimeError, because no
        child is running. */
    method Restart() returns (raised: bool)
      modifies this
      ensures State() == Next(old(State()), Event.Restart)
      ensures raised <==> !old(State()).Alive()
    {
      shouldRestartProcess := true;
      raised := children == [] || children[|children| - 1].returnCode.Some?;
      if !raised {
        Kill();
      }
    }

    /** One event reaches the task; events that cannot occur now are ignored. */
    method Deliver(e: Event)
      modifies this
      ensures State() == Next(old(State()), e)
    {
      var exited := children != [] && children[|children| - 1].returnCode.Some?;
      match e {
        case Started => if phase.Starting? { Start(); }
        case StartFailed(error) => if phase.Starting? { phase := Done(Some(error)); }
        case Line(text) =>
          if phase.Communicating? || phase.AwaitingTermination? || phase.AwaitingKill? { ReadLine(text); }
        case OutputEnded => if phase.Communicating? && exited { Terminate(None); }
        case ReaderFailed => if children != [] || phase.Starting? || phase.RestartDelay? { Raise(OtherError); }
        case Cancel => if children != [] || phase.Starting? || phase.RestartDelay? { Raise(Cancelled); }
        case WaitEnded => if exited { ContinueTermination(); }
        case WaitTimedOut => if children != [] { ContinueTermination(); }
        case DelayOver =>
          if phase.RestartDelay? {
            phase := if shouldRestartProcess then Starting else Done(None);
          }
        case ChildExits(code) =>
          if children != [] && !exited {
            children := children[|children| - 1 := children[|children| - 1].(returnCode := Some(code))];
          }
        case Restart => var _ := Restart();
        case SetKeepAlive(value) => keepAlive := value;
      }
    }
  }
}
