/** Starting and stopping an IO thread (`net/EventLoopThread`): the owner calls
    `startLoop` and later the destructor, the worker builds an EventLoop on its stack,
    publishes it and runs it.  Critical sections are single steps, except that the
    destructor keeps the mutex between the two halves of `quit`. */
module EventLoopThread {
  import opened Options

  datatype Owner = Idle | Waiting | Woken | HasLoop | ExtQuitting | Quitting | Joining | Gone

  datatype Worker =
    | NotCreated | Creating | AtLock
    | Parked          // in the wait for `started_`
    | Unparked
    | Callback | LoopTop | Polling | Dispatching(wakeSeen: bool)
    | AfterLoop | Returning | Exited

  datatype State = State(
    owner: Owner,
    worker: Worker,
    published: bool,         // loop_ is not null
    started: bool,
    exiting: bool,
    quit: bool,              // of the EventLoop
    counter: nat,            // its eventfd
    alive: bool,             // the EventLoop object exists
    returned: Option<bool>)  // did startLoop return a non-null pointer
  {
    predicate LockFree() {
      !owner.Quitting?
    }

    /** The EventLoop is on the worker's stack, and the worker means to run it. */
    predicate WorkerHolds() {
      worker.Parked? || worker.Unparked? || InLoop() || worker.AfterLoop?
    }

    predicate InLoop() {
      worker.Callback? || worker.LoopTop? || worker.Polling? || worker.Dispatching?
    }
  }

  datatype Action =
    | StartLoop | OwnerRecheck | OwnerSpurious
    | Build | WorkerEnter | WorkerRecheck | WorkerSpurious
    | RunCallback(quits: bool) | Check | PollReturns(wake: bool) | Dispatch(quits: bool)
    | LeaveLoop | DestroyLoop
    | ExtQuitStore | ExtQuitWrite  // the owner calls quit() on the pointer it was given
    | Destruct | QuitWrite | Join

  const INIT := State(Idle, NotCreated, false, false, false, false, 0, false, None)

  predicate Enabled(s: State, a: Action) {
    match a
    case StartLoop => s.owner.Idle?
    case OwnerRecheck => s.owner.Woken? && s.LockFree()
    case OwnerSpurious => s.owner.Waiting?
    case Build => s.worker.Creating?
    case WorkerEnter => s.worker.AtLock? && s.LockFree()
    case WorkerRecheck => s.worker.Unparked? && s.LockFree()
    case WorkerSpurious => s.worker.Parked?
    case RunCallback(_) => s.worker.Callback?
    case Check => s.worker.LoopTop?
    case PollReturns(wake) => s.worker.Polling? && (wake ==> 0 < s.counter)
    case Dispatch(_) => s.worker.Dispatching?
    case LeaveLoop => s.worker.AfterLoop? && s.LockFree()
    case DestroyLoop => s.worker.Returning?
    case ExtQuitStore => s.owner.HasLoop?
    case ExtQuitWrite => s.owner.ExtQuitting?
    case Destruct => s.owner.Idle? || s.owner.HasLoop?
    case QuitWrite => s.owner.Quitting?
    case Join => s.owner.Joining? && s.worker.Exited?
  }

  /** notify_one, seen from the other side: at most one of the two is ever waiting. */
  function WakeOwner(s: State): State {
    if s.owner.Waiting? then s.(owner := Woken) else s
  }

  function WakeWorker(s: State): State {
    if s.worker.Parked? then s.(worker := Unparked) else s
  }

  /** The owner's wait loop in `startLoop`, with the mutex held. */
  function AwaitLoop(s: State): State {
    if !s.published && !s.exiting then s.(owner := Waiting)
    else WakeWorker(s.(owner := HasLoop, started := true, returned := Some(s.published)))
  }

  /** The worker's wait loop in `threadFunc`, with the mutex held. */
  function AwaitStart(s: State): State {
    if !s.started && !s.exiting then s.(worker := Parked)
    else if s.exiting && !s.started then WakeOwner(s.(published := false, worker := Returning))
    else s.(worker := Callback)
  }

  function Apply(s: State, a: Action): State
    requires Enabled(s, a)
  {
    match a
    case StartLoop => AwaitLoop(s.(worker := Creating))
    case OwnerRecheck => AwaitLoop(s)
    case OwnerSpurious => s.(owner := Woken)
    case Build => s.(worker := AtLock, alive := true)
    case WorkerEnter =>
      if s.exiting then WakeOwner(s.(worker := Returning)) else AwaitStart(WakeOwner(s.(published := true)))
    case WorkerRecheck => AwaitStart(s)
    case WorkerSpurious => s.(worker := Unparked)
    case RunCallback(quits) => s.(worker := LoopTop, quit := s.quit || quits)
    case Check => s.(worker := if s.quit then AfterLoop else Polling)
    case PollReturns(wake) => s.(worker := Dispatching(wake))
    case Dispatch(quits) =>
      s.(worker := LoopTop, quit := s.quit || quits, counter := if s.worker.wakeSeen then 0 else s.counter)
    case LeaveLoop => WakeOwner(s.(published := false, exiting := true, worker := Returning))
    case DestroyLoop => s.(alive := false, worker := Exited)
    case ExtQuitStore => s.(owner := ExtQuitting, quit := true)
    case ExtQuitWrite => s.(owner := HasLoop, counter := s.counter + 1)
    case Destruct =>
      if s.published then s.(exiting := true, quit := true, owner := Quitting)
      else WakeWorker(s.(exiting := true, owner := if s.worker.NotCreated? then Gone else Joining))
    case QuitWrite => WakeWorker(s.(counter := s.counter + 1, owner := Joining))
    case Join => s.(owner := Gone)
  }

  predicate CanRun(s: State, run: seq<Action>)
    decreases |run|
  {
    run == [] || (Enabled(s, run[0]) && CanRun(Apply(s, run[0]), run[1..]))
  }

  function After(s: State, run: seq<Action>): State
    requires CanRun(s, run)
    decreases |run|
  {
    if run == [] then s else After(Apply(s, run[0]), run[1..])
  }

  ghost predicate Inv(s: State) {
    && (s.worker.NotCreated? <==> s.owner.Idle? || (s.owner.Gone? && !s.started))
    && (s.alive <==> s.worker.AtLock? || s.WorkerHolds() || s.worker.Returning?)
    && (s.published <==> s.WorkerHolds())
    && (s.owner.Waiting? ==> s.worker.Creating? || s.worker.AtLock?)
    && (s.owner.Idle? || s.owner.Waiting? || s.owner.Woken? ==> !s.started && !s.exiting)
    && (s.worker.Parked? ==> s.owner.Woken?)
    && (s.worker.Creating? || s.worker.AtLock? ==> s.owner.Waiting? || s.owner.Woken?)
    && (s.InLoop() || s.worker.AfterLoop? || s.worker.Returning? || s.worker.Exited? ==> s.started)
    && (s.owner in {HasLoop, ExtQuitting, Quitting, Joining} ==> s.started && s.returned == Some(true))
    && (s.returned.Some? ==> s.returned.value)
    && (s.owner.Quitting? ==> s.published && s.quit)
    && (s.owner.Joining? && s.published ==> s.quit)
    && (s.owner.Gone? ==> s.worker.Exited? || s.worker.NotCreated?)
    && (s.worker.AfterLoop? || s.worker.Returning? || s.worker.Exited? ==> s.quit)
    // a quit that the poll has not seen has written, or is about to write, to the eventfd
    && (s.worker.Polling? && s.quit ==> 0 < s.counter || s.owner.ExtQuitting? || s.owner.Quitting?)
  }

  lemma StepKeepsInv(s: State, a: Action)
    requires Inv(s) && Enabled(s, a)
    ensures Inv(Apply(s, a))
  {
  }

  lemma {:induction false} RunKeepsInv(s: State, run: seq<Action>)
    requires Inv(s) && CanRun(s, run)
    ensures Inv(After(s, run))
    decreases |run|
  {
    if run != [] {
      StepKeepsInv(s, run[0]);
      RunKeepsInv(Apply(s, run[0]), run[1..]);
    }
  }

  /** In every run: a published pointer is to a live loop, `startLoop` never returns null,
      the destructor's `quit` works on a live loop, and the two sides never wait for each
      other on the condition variable. */
  lemma HandshakeIsSafe(run: seq<Action>)
    requires CanRun(INIT, run)
    ensures var s := After(INIT, run);
            && (s.published ==> s.alive)
            && s.returned != Some(false)
            && (s.owner.Quitting? ==> s.alive)
            && !(s.owner.Waiting? && s.worker.Parked?)
  {
    RunKeepsInv(INIT, run);
  }

  /** The steps that happen by themselves: no spurious wake-up, no voluntary quit, and a
      poll returns only for the eventfd. */
  predicate Productive(a: Action) {
    a !in {OwnerSpurious, WorkerSpurious, ExtQuitStore, PollReturns(false)}
  }

  /** Until the owner is gone something can always happen.  Together with `JoinIsBounded`:
      once the destructor has asked, the worker ends and the join returns. */
  lemma NeverDeadlocked(run: seq<Action>) returns (a: Action)
    requires CanRun(INIT, run) && !After(INIT, run).owner.Gone?
    ensures Productive(a) && Enabled(After(INIT, run), a)
  {
    RunKeepsInv(INIT, run);
    var s := After(INIT, run);
    match s.owner {
      case Idle => a := StartLoop;
      case Waiting => a := if s.worker.Creating? then Build else WorkerEnter;
      case Woken => a := OwnerRecheck;
      case HasLoop => a := Destruct;
      case ExtQuitting => a := ExtQuitWrite;
      case Quitting => a := QuitWrite;
      case Joining =>
        match s.worker {
          case Unparked => a := WorkerRecheck;
          case Callback => a := RunCallback(false);
          case LoopTop => a := Check;
          case Polling => a := PollReturns(true);
          case Dispatching(_) => a := Dispatch(false);
          case AfterLoop => a := LeaveLoop;
          case Returning => a := DestroyLoop;
          case _ => a := Join;
        }
    }
  }

  /** How many steps the join can still take. */
  function Remaining(s: State): nat {
    if !s.owner.Joining? then 0 else
      match s.worker
      case Exited => 1
      case Returning => 2
      case AfterLoop => 3
      case LoopTop => 4
      case Dispatching(_) => 5
      case Polling => 6
      case Callback => 7
      case Unparked => 8
      case _ => 9
  }

  /** Whatever the scheduler, the kernel and the loop's callbacks do, a destructor that
      waits for its worker does so for at most nine more steps. */
  lemma {:induction false} JoinIsBounded(s: State, run: seq<Action>)
    requires Inv(s) && (s.owner.Joining? || s.owner.Gone?) && CanRun(s, run)
    ensures |run| <= Remaining(s) <= 9
    decreases |run|
  {
    if run != [] {
      StepKeepsInv(s, run[0]);
      JoinIsBounded(Apply(s, run[0]), run[1..]);
    }
  }

  // ---- the pointer that startLoop returned ----

  /** Somebody asks the loop to quit: a callback on the loop, the owner, or the destructor. */
  predicate AsksToQuit(a: Action) {
    a in {RunCallback(true), Dispatch(true), ExtQuitStore, Destruct}
  }

  /** The loop has been told to quit: by a callback or the owner, or by the destructor, which
      tells it only if there is a worker. */
  predicate Asked(run: seq<Action>) {
    || RunCallback(true) in run || Dispatch(true) in run || ExtQuitStore in run
    || (StartLoop in run && Destruct in run)
  }

  ghost predicate Remembers(s: State, run: seq<Action>) {
    && Inv(s) && (s.quit <==> Asked(run))
    && (StartLoop in run <==> !s.worker.NotCreated?)
    && (s.owner.Gone? && s.worker.NotCreated? <==> Destruct in run && StartLoop !in run)
    && (Destruct in run ==> s.owner in {Quitting, Joining, Gone})
  }

  lemma StepRemembers(s: State, run: seq<Action>, a: Action)
    requires Remembers(s, run) && Enabled(s, a)
    ensures Remembers(Apply(s, a), run + [a])
  {
    StepKeepsInv(s, a);
  }

  lemma {:induction false} SplitLast(s: State, run: seq<Action>, a: Action)
    requires CanRun(s, run + [a])
    ensures CanRun(s, run) && Enabled(After(s, run), a) && After(s, run + [a]) == Apply(After(s, run), a)
    decreases |run|
  {
    hide Enabled, Apply;
    if run == [] {
      assert ([] + [a])[1..] == [];
    } else {
      assert (run + [a])[1..] == run[1..] + [a];
      SplitLast(Apply(s, run[0]), run[1..], a);
    }
  }

  /** In every run the loop is told to quit exactly if somebody asked. */
  lemma {:induction false} QuitIffAsked(run: seq<Action>)
    requires CanRun(INIT, run)
    ensures After(INIT, run).quit <==> Asked(run)
    ensures Remembers(After(INIT, run), run)
  {
    hide Enabled, Apply;
    if run != [] {
      var shorter, last := run[..|run| - 1], run[|run| - 1];
      assert run == shorter + [last];
      SplitLast(INIT, shorter, last);
      QuitIffAsked(shorter);
      StepRemembers(After(INIT, shorter), shorter, last);
    }
  }

  /** The loop reads the eventfd empty exactly when the poll reported it. */
  lemma WakeUpIsRead(s: State, quits: bool)
    requires Enabled(s, Dispatch(quits))
    ensures Apply(s, Dispatch(quits)).counter == if s.worker == Dispatching(true) then 0 else s.counter
  {
  }

  predicate NobodyAsks(run: seq<Action>) {
    forall a :: a in run ==> !AsksToQuit(a)
  }

  /** How far the worker is from having left, once it has been told to. */
  function ToExit(w: Worker): nat {
    match w
    case Exited => 0
    case Returning => 1
    case AfterLoop => 2
    case LoopTop => 3
    case Dispatching(_) => 4
    case Polling => 5
    case Callback => 6
    case _ => 7
  }

  /** A loop that was told to quit can be left and destroyed while the owner, who holds the
      pointer, does nothing. */
  lemma {:induction false} LeavesAlone(s: State) returns (more: seq<Action>)
    requires Inv(s) && s.owner in {HasLoop, ExtQuitting} && s.quit
    ensures CanRun(s, more) && NobodyAsks(more)
    ensures After(s, more).owner == s.owner && !After(s, more).alive
    decreases ToExit(s.worker)
  {
    if s.worker.Exited? {
      more := [];
    } else {
      var a := match s.worker
        case Returning => DestroyLoop
        case AfterLoop => LeaveLoop
        case LoopTop => Check
        case Dispatching(_) => Dispatch(false)
        case Polling => PollReturns(false)
        case Callback => RunCallback(false)
        case _ => WorkerRecheck;
      StepKeepsInv(s, a);
      var rest := LeavesAlone(Apply(s, a));
      more := [a] + rest;
      Prepend(s, a, rest);
    }
  }

  lemma Prepend(s: State, a: Action, run: seq<Action>)
    requires Enabled(s, a) && CanRun(Apply(s, a), run)
    ensures CanRun(s, [a] + run) && After(s, [a] + run) == After(Apply(s, a), run)
  {
    assert ([a] + run)[1..] == run;
  }

  /** As long as nobody asks, the owner keeps a pointer to a live loop. */
  lemma {:induction false} StaysAlive(s: State, more: seq<Action>)
    requires Inv(s) && s.owner.HasLoop? && !s.quit && CanRun(s, more) && NobodyAsks(more)
    ensures After(s, more).alive && After(s, more).owner.HasLoop?
    decreases |more|
  {
    if more != [] {
      StepKeepsInv(s, more[0]);
      assert !AsksToQuit(more[0]) && Apply(s, more[0]).owner.HasLoop? && !Apply(s, more[0]).quit;
      StaysAlive(Apply(s, more[0]), more[1..]);
    }
  }

  /** In every reachable state in which the owner has the pointer: the loop can vanish
      without anybody asking it to quit (any more) if and only if it was asked already. */
  lemma PointerIsLiveUntilQuit(run: seq<Action>)
    requires CanRun(INIT, run) && After(INIT, run).owner.HasLoop?
    ensures var s := After(INIT, run);
            && (!s.quit ==> s.alive)
            && (s.quit <==> exists more :: CanRun(s, more) && NobodyAsks(more) && !After(s, more).alive)
  {
    RunKeepsInv(INIT, run);
    var s := After(INIT, run);
    if s.quit {
      var more := LeavesAlone(s);
    } else {
      forall more | CanRun(s, more) && NobodyAsks(more)
        ensures After(s, more).alive
      {
        StaysAlive(s, more);
      }
    }
  }

  /** Calling `quit` on the pointer is never guaranteed to be safe: in every reachable state
      in which the owner can make the call, the worker can leave and destroy the loop between
      the call's two halves, since no mutex is held as it is in the destructor. */
  lemma QuitMayOutliveLoop(run: seq<Action>) returns (more: seq<Action>)
    requires CanRun(INIT, run) && After(INIT, run).owner.HasLoop?
    ensures var s := After(INIT, run);
            && CanRun(s, [ExtQuitStore] + more) && NobodyAsks(more)
            && After(s, [ExtQuitStore] + more).owner.ExtQuitting? && !After(s, [ExtQuitStore] + more).alive
  {
    RunKeepsInv(INIT, run);
    var s := After(INIT, run);
    StepKeepsInv(s, ExtQuitStore);
    more := LeavesAlone(Apply(s, ExtQuitStore));
    Prepend(s, ExtQuitStore, more);
  }

  /** And there are such states. */
  lemma PointerIsHandedOut() returns (run: seq<Action>)
    ensures CanRun(INIT, run) && After(INIT, run).owner.HasLoop? && After(INIT, run).alive
  {
    run := LoopIsUp();
  }

  /** The undisturbed start. */
  lemma LoopIsUp() returns (run: seq<Action>)
    ensures CanRun(INIT, run)
    ensures After(INIT, run) == State(HasLoop, LoopTop, true, true, false, false, 0, true, Some(true))
  {
    run := Extend([], StartLoop);
    run := Extend(run, Build);
    run := Extend(run, WorkerEnter);
    run := Extend(run, OwnerRecheck);
    run := Extend(run, WorkerRecheck);
    run := Extend(run, RunCallback(false));
  }

  lemma Extend(run: seq<Action>, a: Action) returns (longer: seq<Action>)
    requires CanRun(INIT, run) && Enabled(After(INIT, run), a)
    ensures CanRun(INIT, longer) && After(INIT, longer) == Apply(After(INIT, run), a)
  {
    longer := run + [a];
    ExtendFrom(INIT, run, a);
  }

  lemma {:induction false} ExtendFrom(s: State, run: seq<Action>, a: Action)
    requires CanRun(s, run) && Enabled(After(s, run), a)
    ensures CanRun(s, run + [a]) && After(s, run + [a]) == Apply(After(s, run), a)
    decreases |run|
  {
    if run == [] {
      assert ([] + [a])[1..] == [];
    } else {
      assert (run + [a])[1..] == run[1..] + [a];
      ExtendFrom(Apply(s, run[0]), run[1..], a);
    }
  }
}
