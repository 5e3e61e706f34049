/** Shutting down a `Remote_Multiserver_Point`: the thread that calls `shutdown` and the daemon, with a
    mutex, a condition variable and the daemon's queue of messages between them. */
module Handshake {
  import opened Options

  datatype Message = Request | OneWay | Shutdown | Other

  /** Where the daemon stands in its loop and, for a shutdown message, in the dispatcher. */
  datatype DaemonPc = Loop | Recv | Append | Sweep | Dispatch | Critical | Leave | Signal | Exited

  /** Where `shutdown` stands: sending, locking, testing the flag, waiting, locking again after the wake-up,
      unlocking, and the teardown. */
  datatype WaiterPc = Send | Acquire | Check | Waiting | Reacquire | Release | FreeTable | DestroyLocks | SweepList | Finished

  datatype Thread = Daemon | Waiter

  /** What the daemon does with the list and the table, and `shutdown` at the end. */
  datatype Work = Enter | SweepOver | Handle(m: Message)

  datatype Teardown = TableFreed | LocksDestroyed | ListSwept

  datatype State = State(
    daemon: DaemonPc,
    message: Message,          // the one the daemon is working on
    waiter: WaiterPc,
    queue: seq<Message>,
    flag: bool,                // `is_shutdown`
    mutex: Option<Thread>,     // `shutdown_lock`
    arrived: seq<Message>,     // all messages ever queued
    work: seq<Work>,           // all the daemon has done
    torn: seq<Teardown>)       // all the teardown has done

  datatype Step = DaemonStep | WaiterStep | Arrive(m: Message)

  function Start(queue: seq<Message>): State {
    State(Loop, Other, Send, queue, false, None, queue, [], [])
  }

  ghost predicate Enabled(s: State, a: Step) {
    match a
    case DaemonStep =>
      && s.daemon != Exited
      && (s.daemon == Recv ==> s.queue != [])
      && (s.daemon == Dispatch && s.message == Shutdown ==> s.mutex == None)
    case WaiterStep =>
      && s.waiter != Finished && s.waiter != Waiting
      && (s.waiter in {Acquire, Reacquire} ==> s.mutex == None)
    case Arrive(m) => true
  }

  function Next(s: State, a: Step): State
    requires a != DaemonStep || s.daemon != Recv || s.queue != []
  {
    match a
    case DaemonStep =>
      (match s.daemon
       case Loop => s.(daemon := if s.flag then Exited else Recv)
       case Recv => s.(message := s.queue[0], queue := s.queue[1..], daemon := if s.queue[0] == Request then Append else Sweep)
       case Append => s.(work := s.work + [Enter], daemon := Sweep)
       case Sweep => s.(work := s.work + [SweepOver], daemon := Dispatch)
       case Dispatch => if s.message == Shutdown then s.(mutex := Some(Daemon), daemon := Critical)
                        else s.(work := s.work + [Handle(s.message)], daemon := Loop)
       case Critical => s.(flag := true, work := s.work + [Handle(Shutdown)], daemon := Leave)
       case Leave => s.(mutex := None, daemon := Signal)
       case Signal => s.(waiter := if s.waiter == Waiting then Reacquire else s.waiter, daemon := Loop)
       case Exited => s)
    case WaiterStep =>
      (match s.waiter
       case Send => s.(queue := s.queue + [Shutdown], arrived := s.arrived + [Shutdown], waiter := Acquire)
       case Acquire => s.(mutex := Some(Waiter), waiter := Check)
       case Check => if s.flag then s.(waiter := Release) else s.(mutex := None, waiter := Waiting)
       case Waiting => s
       case Reacquire => s.(mutex := Some(Waiter), waiter := Release)
       case Release => s.(mutex := None, waiter := FreeTable)
       case FreeTable => s.(torn := s.torn + [TableFreed], waiter := DestroyLocks)
       case DestroyLocks => s.(torn := s.torn + [LocksDestroyed], waiter := SweepList)
       case SweepList => s.(torn := s.torn + [ListSwept], waiter := Finished)
       case Finished => s)
    case Arrive(m) => s.(queue := s.queue + [m], arrived := s.arrived + [m])
  }

  /** The daemon uses the binding list while it appends and sweeps, and the table when it dispatches. */
  predicate DaemonTouches(s: State) {
    s.daemon in {Append, Sweep} || (s.daemon == Dispatch && s.message != Shutdown)
  }

  predicate TearingDown(s: State) {
    s.waiter in {FreeTable, DestroyLocks, SweepList, Finished}
  }

  ghost predicate Inv(s: State) {
    && (s.mutex == Some(Daemon) <==> s.daemon in {Critical, Leave})
    && (s.mutex == Some(Waiter) <==> s.waiter in {Check, Release})
    && (s.flag ==> s.daemon in {Leave, Signal, Loop, Exited})
    && (s.daemon in {Leave, Signal, Exited} ==> s.flag)
    && (s.daemon == Critical ==> s.message == Shutdown)
    && (s.waiter in {Reacquire, Release} || TearingDown(s) ==> s.flag)
    && (s.waiter == Waiting && s.flag ==> s.daemon in {Leave, Signal})
    && (s.waiter != Send && !s.flag ==> Coming(s))
    && s.torn == TornBy(s.waiter)
  }

  function TornBy(pc: WaiterPc): seq<Teardown> {
    match pc
    case DestroyLocks => [TableFreed]
    case SweepList => [TableFreed, LocksDestroyed]
    case Finished => [TableFreed, LocksDestroyed, ListSwept]
    case _ => []
  }

  /** What is to be done about one message, and about several. */
  function ChoresOf(m: Message): seq<Work> {
    (if m == Request then [Enter] else []) + [SweepOver, Handle(m)]
  }

  function Chores(ms: seq<Message>): seq<Work> {
    if ms == [] then [] else Chores(ms[..|ms| - 1]) + ChoresOf(ms[|ms| - 1])
  }

  /** The part of it that the daemon has done about the message in its hands. */
  function Begun(pc: DaemonPc, m: Message): seq<Work> {
    match pc
    case Sweep => if m == Request then [Enter] else []
    case Dispatch => (if m == Request then [Enter] else []) + [SweepOver]
    case Critical => [SweepOver]
    case _ => []
  }

  predicate InHand(pc: DaemonPc) {
    pc in {Append, Sweep, Dispatch, Critical}
  }

  /** The daemon works off the messages as they arrived. */
  ghost predicate Working(s: State) {
    && |s.queue| <= |s.arrived|
    && var n := |s.arrived| - |s.queue|;
       && s.queue == s.arrived[n..]
       && (s.daemon == Append ==> s.message == Request)
       && if InHand(s.daemon) then
            n > 0 && s.message == s.arrived[n - 1] && s.work == Chores(s.arrived[..n - 1]) + Begun(s.daemon, s.message)
          else s.work == Chores(s.arrived[..n])
  }

  lemma ReceivesNext(s: State)
    requires Working(s) && s.daemon == Recv && s.queue != []
    ensures Working(Next(s, DaemonStep))
  {
    var n := |s.arrived| - |s.queue|;
    assert s.arrived[n] == s.queue[0] && s.arrived[n..][1..] == s.arrived[n + 1..];
    assert Chores(s.arrived[..n]) + [] == Chores(s.arrived[..n]);
  }

  lemma ChoresDone(s: State)
    requires Working(s) && InHand(s.daemon)
    ensures var n := |s.arrived| - |s.queue|;
            Chores(s.arrived[..n]) == Chores(s.arrived[..n - 1]) + ChoresOf(s.message)
  {
    var n := |s.arrived| - |s.queue|;
    assert s.arrived[..n][..n - 1] == s.arrived[..n - 1];
  }

  lemma BegunSteps(m: Message)
    ensures m == Request ==> Begun(Append, m) + [Enter] == Begun(Sweep, m)
    ensures Begun(Sweep, m) + [SweepOver] == Begun(Dispatch, m)
    ensures Begun(Dispatch, m) + [Handle(m)] == ChoresOf(m)
    ensures m == Shutdown ==> Begun(Critical, m) == Begun(Dispatch, m)
  {
  }

  lemma WorksOn(s: State)
    requires Working(s) && InHand(s.daemon) && (s.daemon == Critical ==> s.message == Shutdown)
    ensures Working(Next(s, DaemonStep))
  {
    var before := Chores(s.arrived[..|s.arrived| - |s.queue| - 1]);
    var begun := Begun(s.daemon, s.message);
    BegunSteps(s.message);
    ChoresDone(s);
    Assoc(before, begun, [Enter]);
    Assoc(before, begun, [SweepOver]);
    Assoc(before, begun, [Handle(s.message)]);
  }

  lemma Assoc(a: seq<Work>, b: seq<Work>, c: seq<Work>)
    ensures a + b + c == a + (b + c)
  {
  }

  lemma WorkingStill(s: State, m: Message)
    requires Working(s)
    ensures Working(s.(queue := s.queue + [m], arrived := s.arrived + [m]))
  {
    var n := |s.arrived| - |s.queue|;
    var more := s.arrived + [m];
    assert more[n..] == s.arrived[n..] + [m] && more[..n] == s.arrived[..n];
    assert n > 0 ==> more[..n - 1] == s.arrived[..n - 1];
  }

  /** The shutdown message is in the queue or in the daemon's hands. */
  ghost predicate Coming(s: State) {
    Shutdown in s.queue || (s.message == Shutdown && s.daemon in {Append, Sweep, Dispatch, Critical})
  }

  lemma NextKeeps(s: State, a: Step)
    requires Inv(s) && Enabled(s, a)
    ensures Inv(Next(s, a))
  {
    if a == DaemonStep && s.daemon == Recv {
      assert s.queue == [s.queue[0]] + s.queue[1..];
    }
  }

  lemma NextWorks(s: State, a: Step)
    requires Inv(s) && Working(s) && Enabled(s, a)
    ensures Working(Next(s, a))
  {
    match a
    case Arrive(m) => WorkingStill(s, m);
    case WaiterStep =>
      if s.waiter == Send {
        WorkingStill(s, Shutdown);
        SameWork(s.(queue := s.queue + [Shutdown], arrived := s.arrived + [Shutdown]), Next(s, a));
      } else {
        SameWork(s, Next(s, a));
      }
    case DaemonStep =>
      if s.daemon == Recv {
        ReceivesNext(s);
      } else if InHand(s.daemon) {
        WorksOn(s);
      } else {
        SameWork(s, Next(s, a));
      }
  }

  lemma SameWork(s: State, t: State)
    requires Working(s) && t.queue == s.queue && t.arrived == s.arrived && t.work == s.work
    requires (t.daemon == s.daemon && t.message == s.message) || (!InHand(s.daemon) && !InHand(t.daemon))
    ensures Working(t)
  {
  }

  ghost predicate LegalRun(s: State, steps: seq<Step>)
    decreases |steps|
  {
    steps != [] ==> Enabled(s, steps[0]) && LegalRun(Next(s, steps[0]), steps[1..])
  }

  ghost function Run(s: State, steps: seq<Step>): State
    requires LegalRun(s, steps)
    decreases |steps|
  {
    if steps == [] then s else Run(Next(s, steps[0]), steps[1..])
  }

  lemma {:induction false} RunKeeps(s: State, steps: seq<Step>)
    requires Inv(s) && LegalRun(s, steps)
    ensures Inv(Run(s, steps))
    decreases |steps|
  {
    if steps != [] {
      NextKeeps(s, steps[0]);
      RunKeeps(Next(s, steps[0]), steps[1..]);
    }
  }

  /** In every interleaving: past the wait the flag is up; the teardown never overlaps the daemon's use of
      the table or the list; and a waiter that sleeps although the flag is up is about to be woken. */
  lemma TeardownIsSafe(queue: seq<Message>, steps: seq<Step>)
    requires LegalRun(Start(queue), steps)
    ensures var s := Run(Start(queue), steps);
            && (s.waiter in {Reacquire, Release} || TearingDown(s) ==> s.flag)
            && !(TearingDown(s) && DaemonTouches(s))
            && (s.waiter == Waiting && s.flag ==> s.daemon in {Leave, Signal})
  {
    RunKeeps(Start(queue), steps);
  }

  /** In every interleaving: the daemon enters, sweeps and handles the messages in the order in which they
      arrived, each once, and the teardown does all it has to, in order. */
  lemma AllWorkIsDone(queue: seq<Message>, steps: seq<Step>)
    requires LegalRun(Start(queue), steps)
    ensures var s := Run(Start(queue), steps);
            && s.work <= Chores(s.arrived)
            && (s.daemon == Recv && s.queue == [] ==> s.work == Chores(s.arrived))
            && (s.waiter == Finished ==> s.torn == [TableFreed, LocksDestroyed, ListSwept])
            && (s.torn != [] ==> s.flag)
  {
    StartWorks(queue);
    RunKeeps(Start(queue), steps);
    RunWorks(Start(queue), steps);
    WorkIsPrefix(Run(Start(queue), steps));
  }

  lemma StartWorks(queue: seq<Message>)
    ensures Working(Start(queue))
  {
    assert queue[0..] == queue && queue[..0] == [];
  }

  lemma {:induction false} RunWorks(s: State, steps: seq<Step>)
    requires Inv(s) && Working(s) && LegalRun(s, steps)
    ensures Working(Run(s, steps))
    decreases |steps|
  {
    if steps != [] {
      NextKeeps(s, steps[0]);
      NextWorks(s, steps[0]);
      RunWorks(Next(s, steps[0]), steps[1..]);
    }
  }

  lemma WorkIsPrefix(s: State)
    requires Working(s) && (s.daemon == Critical ==> s.message == Shutdown)
    ensures s.work <= Chores(s.arrived)
    ensures s.daemon == Recv && s.queue == [] ==> s.work == Chores(s.arrived)
  {
    var n := |s.arrived| - |s.queue|;
    ChoresPrefix(s.arrived, n);
    assert s.arrived[..|s.arrived|] == s.arrived;
    if InHand(s.daemon) {
      ChoresDone(s);
      assert Begun(s.daemon, s.message) <= ChoresOf(s.message);
      PrefixBehind(Chores(s.arrived[..n - 1]), Begun(s.daemon, s.message), ChoresOf(s.message));
    }
  }

  lemma PrefixBehind<T>(a: seq<T>, b: seq<T>, c: seq<T>)
    requires b <= c
    ensures a + b <= a + c
  {
  }

  lemma {:induction false} ChoresPrefix(ms: seq<Message>, n: nat)
    requires n <= |ms|
    ensures Chores(ms[..n]) <= Chores(ms)
    decreases |ms|
  {
    if n == |ms| {
      assert ms[..n] == ms;
    } else {
      ChoresPrefix(ms[..|ms| - 1], n);
      assert ms[..|ms| - 1][..n] == ms[..n];
    }
  }

  /** Once the flag is up the daemon never touches table or list again. */
  lemma {:induction false} FlagEndsTheDaemon(s: State, steps: seq<Step>)
    requires Inv(s) && s.flag && LegalRun(s, steps)
    ensures Run(s, steps).flag && !DaemonTouches(Run(s, steps))
    decreases |steps|
  {
    if steps != [] {
      NextKeeps(s, steps[0]);
      FlagEndsTheDaemon(Next(s, steps[0]), steps[1..]);
    }
  }

  // ----- The wake-up is never lost: every run reaches the end of the shutdown

  function Position(queue: seq<Message>): (n: nat)
    ensures n <= |queue| && (Shutdown in queue ==> n < |queue|)
  {
    if queue == [] || queue[0] == Shutdown then 0 else 1 + Position(queue[1..])
  }

  function DaemonDistance(s: State): nat {
    match s.daemon
    case Loop => if s.flag then 1 else 9
    case Recv => 8
    case Append => if s.message == Shutdown then 7 else 12
    case Sweep => if s.message == Shutdown then 6 else 11
    case Dispatch => if s.message == Shutdown then 5 else 10
    case Critical => 4
    case Leave => 3
    case Signal => 2
    case Exited => 0
  }

  function WaiterDistance(pc: WaiterPc): nat {
    match pc
    case Send => 9
    case Acquire => 8
    case Check => 7
    case Waiting => 6
    case Reacquire => 5
    case Release => 4
    case FreeTable => 3
    case DestroyLocks => 2
    case SweepList => 1
    case Finished => 0
  }

  /** The messages the daemon still has to take before it has seen the shutdown message. */
  function Ahead(s: State): nat {
    if s.flag || (s.message == Shutdown && s.daemon in {Append, Sweep, Dispatch, Critical}) then 0
    else if Shutdown in s.queue then 1 + Position(s.queue) else 0
  }

  /** How many steps of the two threads are left at most, once the shutdown message has been sent. */
  function Distance(s: State): nat {
    10 * Ahead(s) + DaemonDistance(s) + WaiterDistance(s.waiter)
  }

  lemma {:induction false} PositionAppend(queue: seq<Message>, m: Message)
    requires Shutdown in queue
    ensures Shutdown in queue + [m] && Position(queue + [m]) == Position(queue)
  {
    if queue[0] != Shutdown {
      assert queue == [queue[0]] + queue[1..];
      PositionAppend(queue[1..], m);
      assert (queue + [m])[1..] == queue[1..] + [m];
    }
  }

  /** Every step of the two threads brings the end nearer, and arriving messages do not push it away. */
  lemma StepsApproachTheEnd(s: State, a: Step)
    requires Inv(s) && Enabled(s, a) && s.waiter != Send
    ensures a.Arrive? ==> Distance(Next(s, a)) <= Distance(s)
    ensures !a.Arrive? ==> Distance(Next(s, a)) < Distance(s)
  {
    match a
    case Arrive(m) =>
      if Shutdown in s.queue {
        PositionAppend(s.queue, m);
      }
    case WaiterStep =>
    case DaemonStep => DaemonApproachesTheEnd(s);
  }

  lemma DaemonApproachesTheEnd(s: State)
    requires Inv(s) && Enabled(s, DaemonStep) && s.waiter != Send
    ensures Distance(Next(s, DaemonStep)) < Distance(s)
  {
    if s.daemon == Recv {
      assert s.queue == [s.queue[0]] + s.queue[1..];
    }
  }

  /** As long as `shutdown` has not returned, one of the two threads can take a step. */
  lemma NeverStuck(s: State)
    requires Inv(s) && s.waiter != Finished
    ensures Enabled(s, DaemonStep) || Enabled(s, WaiterStep)
  {
    match s.mutex
    case None =>
    case Some(Daemon) =>
    case Some(Waiter) =>
  }

  function ThreadSteps(steps: seq<Step>): nat {
    if steps == [] then 0 else (if steps[0].Arrive? then 0 else 1) + ThreadSteps(steps[1..])
  }

  /** So after the message is sent, a run can hold only so many steps of the two threads, and one that
      cannot go on has completed the shutdown: no wake-up is lost. */
  lemma {:induction false} ShutdownCompletes(s: State, steps: seq<Step>)
    requires Inv(s) && s.waiter != Send && LegalRun(s, steps)
    ensures ThreadSteps(steps) <= Distance(s)
    ensures !Enabled(Run(s, steps), DaemonStep) && !Enabled(Run(s, steps), WaiterStep) ==>
            Run(s, steps).waiter == Finished && Run(s, steps).flag &&
            Run(s, steps).torn == [TableFreed, LocksDestroyed, ListSwept]
    decreases |steps|
  {
    if steps != [] {
      NextKeeps(s, steps[0]);
      StepsApproachTheEnd(s, steps[0]);
      ShutdownCompletes(Next(s, steps[0]), steps[1..]);
    } else if s.waiter != Finished {
      NeverStuck(s);
    }
  }
}
