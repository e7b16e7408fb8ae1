/** The functor queue and the wake-up of one event loop (`net/EventLoop`), as the steps
    of the loop's thread and of any number of peer threads.  A peer's push (or quit) and
    its write to the eventfd are separate steps; `wakers` counts peers in between. */
module EventLoop {

  type Functor = nat

  /** Where the loop's thread is.  While dispatching, `wakeSeen` says that the wake-up
      channel was reported and has not been handled; while running functors, those from
      `next` on are still to be run. */
  datatype Pc =
    | BeforeLoop
    | Top
    | Polling
    | Dispatching(wakeSeen: bool)
    | Running(batch: seq<Functor>, next: nat)
    | Done

  datatype State = State(
    pc: Pc,
    pending: seq<Functor>,   // alreadyFunctors_
    counter: nat,            // the eventfd
    quit: bool,
    wakers: nat,
    early: bool,             // a functor queued by the loop's own thread before loop() waits
    pushed: seq<Functor>,    // history: every functor queued
    executed: seq<Functor>)  // history: every functor run
  {
    predicate Callable() {
      pc.BeforeLoop? || pc.Dispatching? || pc.Running?
    }

    predicate WorkWaits() {
      pending != [] || quit
    }

    /** Blocked in `poll` although there is work, with no wake-up on its way. */
    predicate Stuck() {
      pc.Polling? && WorkWaits() && counter == 0 && wakers == 0
    }

    function Batch(): seq<Functor> {
      if pc.Running? && pc.next <= |pc.batch| then pc.batch[pc.next..] else []
    }
  }

  datatype Action =
    | PeerPush(f: Functor)   // queueInLoop on another thread, up to the unlock
    | PeerQuit               // quit on another thread, the store
    | PeerWake               // the write to the eventfd that follows either
    | SelfPush(f: Functor)   // queueInLoop on the loop's thread, from user code
    | SelfQuit
    | Start                  // loop() is entered
    | Check                  // the test of quit_
    | PollReturns(wake: bool)
    | HandleWakeupRead
    | Swap                   // doPendingFunctors takes the whole queue
    | RunNext
    | Finish

  const INIT := State(BeforeLoop, [], 0, false, 0, false, [], [])

  predicate Enabled(s: State, a: Action) {
    match a
    case PeerPush(_) => true
    case PeerQuit => true
    case PeerWake => 0 < s.wakers
    case SelfPush(_) => s.Callable()
    case SelfQuit => s.Callable()
    case Start => s.pc.BeforeLoop?
    case Check => s.pc.Top?
    case PollReturns(wake) => s.pc.Polling? && (wake ==> 0 < s.counter)
    case HandleWakeupRead => s.pc == Dispatching(true)
    case Swap => s.pc == Dispatching(false)
    case RunNext => s.pc.Running? && s.pc.next < |s.pc.batch|
    case Finish => s.pc.Running? && s.pc.next == |s.pc.batch|
  }

  function Apply(s: State, a: Action): State
    requires Enabled(s, a)
  {
    match a
    case PeerPush(f) => s.(pending := s.pending + [f], pushed := s.pushed + [f], wakers := s.wakers + 1)
    case PeerQuit => s.(quit := true, wakers := s.wakers + 1)
    case PeerWake => s.(wakers := s.wakers - 1, counter := s.counter + 1)
    case SelfPush(f) =>
      s.(pending := s.pending + [f], pushed := s.pushed + [f],
         counter := s.counter + if s.pc.Running? then 1 else 0,
         early := s.early || s.pc.BeforeLoop?)
    case SelfQuit => s.(quit := true)
    case Start => s.(pc := Top)
    case Check => if s.quit then s.(pc := Done) else s.(pc := Polling)
    case PollReturns(wake) => s.(pc := Dispatching(wake))
    case HandleWakeupRead => s.(pc := Dispatching(false), counter := 0)
    case Swap => s.(pc := Running(s.pending, 0), pending := [], early := false)
    case RunNext => s.(pc := s.pc.(next := s.pc.next + 1), executed := s.executed + [s.pc.batch[s.pc.next]])
    case Finish => s.(pc := Top)
  }

  predicate CanRun(s: State, run: seq<Action>)
    decreases |run|
  {
    run == [] || (Enabled(s, run[0]) && CanRun(Apply(s, run[0]), run[1..]))
  }

  function After(s: State, run: seq<Action>): State
    requires CanRun(s, run)
    decreases |run|
  {
    if run == [] then s else After(Apply(s, run[0]), run[1..])
  }

  lemma {:induction false} ExtendFrom(s: State, run: seq<Action>, a: Action)
    requires CanRun(s, run) && Enabled(After(s, run), a)
    ensures CanRun(s, run + [a]) && After(s, run + [a]) == Apply(After(s, run), a)
    decreases |run|
  {
    if run == [] {
      assert ([] + [a])[1..] == [];
    } else {
      assert (run + [a])[1..] == run[1..] + [a];
      ExtendFrom(Apply(s, run[0]), run[1..], a);
    }
  }

  /** Every functor queued was run, or is in the batch, or in the queue, in this order. */
  ghost predicate Conserved(s: State) {
    && s.executed + s.Batch() + s.pending == s.pushed
    && (s.pc.Running? ==> s.pc.next <= |s.pc.batch|)
  }

  /** Work that appears once the queue has been taken announces itself. */
  ghost predicate Announced(s: State) {
    && (s.early ==> s.pending != [] && !s.pc.Running?)
    && ((s.pc.BeforeLoop? || s.pc.Running? || s.pc.Top? || s.pc.Polling?) && s.pending != [] && !s.early ==>
          0 < s.counter || 0 < s.wakers)
    && (s.pc.Polling? && s.quit ==> 0 < s.counter || 0 < s.wakers)
  }

  ghost predicate Inv(s: State) {
    Conserved(s) && Announced(s)
  }

  lemma StepKeepsInv(s: State, a: Action)
    requires Inv(s) && Enabled(s, a)
    ensures Inv(Apply(s, a))
  {
    StepConserves(s, a);
    hide Conserved, State.Batch;
  }

  lemma StepConserves(s: State, a: Action)
    requires Conserved(s) && Enabled(s, a)
    ensures Conserved(Apply(s, a))
  {
    var t := Apply(s, a);
    match a {
      case PeerPush(f) => Pushed(s.executed + s.Batch(), s.pending, f);
      case SelfPush(f) => Pushed(s.executed + s.Batch(), s.pending, f);
      case Swap => assert t.Batch() == s.pending && s.Batch() == [] && t.executed + t.Batch() + [] == s.pushed;
      case RunNext => NextOfBatch(s);
      case Finish => LastOfBatch(s);
      case _ => assert t.Batch() == s.Batch();
    }
  }

  lemma Pushed(before: seq<Functor>, pending: seq<Functor>, f: Functor)
    ensures before + (pending + [f]) == before + pending + [f]
  {
  }

  lemma {:induction false} RunKeepsInv(s: State, run: seq<Action>)
    requires Inv(s) && CanRun(s, run)
    ensures Inv(After(s, run))
    decreases |run|
  {
    if run != [] {
      StepKeepsInv(s, run[0]);
      RunKeepsInv(Apply(s, run[0]), run[1..]);
    }
  }

  // ---- what the actions alone tell ----

  /** The functors that peers and the loop's own thread asked to be run, in order. */
  function Asked(run: seq<Action>): seq<Functor> {
    if run == [] then []
    else
      var before, last := Asked(run[..|run| - 1]), run[|run| - 1];
      match last
      case PeerPush(f) => before + [f]
      case SelfPush(f) => before + [f]
      case _ => before
  }

  /** Between taking the queue and the end of its functors. */
  predicate InFunctors(run: seq<Action>) {
    run != [] && run[|run| - 1] != Finish && (run[|run| - 1] == Swap || InFunctors(run[..|run| - 1]))
  }

  /** The writes to the eventfd since it was last read: every peer's, and those of functors
      that queue functors. */
  function Written(run: seq<Action>): nat {
    if run == [] then 0
    else
      var before, last := run[..|run| - 1], run[|run| - 1];
      if last == HandleWakeupRead then 0
      else Written(before) + if last == PeerWake || (last.SelfPush? && InFunctors(before)) then 1 else 0
  }

  /** The peers that have pushed or quit, less those that have written since. */
  function Owed(run: seq<Action>): int {
    if run == [] then 0
    else
      var before, last := Owed(run[..|run| - 1]), run[|run| - 1];
      match last
      case PeerPush(_) => before + 1
      case PeerQuit => before + 1
      case PeerWake => before - 1
      case _ => before
  }

  ghost predicate Told(s: State, run: seq<Action>) {
    && s.pushed == Asked(run) && |s.executed| == multiset(run)[RunNext]
    && (s.quit <==> PeerQuit in run || SelfQuit in run)
    && s.wakers == Owed(run) && s.counter == Written(run)
    && (s.pc.Running? <==> InFunctors(run))
  }

  lemma StepIsTold(s: State, run: seq<Action>, a: Action)
    requires Told(s, run) && Enabled(s, a)
    ensures Told(Apply(s, a), run + [a])
  {
    var longer := run + [a];
    assert longer[..|longer| - 1] == run && longer[|longer| - 1] == a;
    assert multiset(longer)[RunNext] == multiset(run)[RunNext] + if a == RunNext then 1 else 0;
  }

  /** In every run, the history is what was asked for, the loop was told to quit if somebody
      did, and the eventfd counts the writes since it was last read. */
  lemma {:induction false} RunIsTold(run: seq<Action>)
    requires CanRun(INIT, run)
    ensures Told(After(INIT, run), run)
  {
    hide Told, Apply, Enabled;
    if run == [] {
      NothingTold();
    } else {
      var shorter, last := run[..|run| - 1], run[|run| - 1];
      assert run == shorter + [last];
      SplitLast(INIT, shorter, last);
      RunIsTold(shorter);
      StepIsTold(After(INIT, shorter), shorter, last);
    }
  }

  lemma NothingTold()
    ensures Told(INIT, [])
  {
  }

  /** In every run functors are run in the order in which they were asked for, each once, one
      by every `RunNext`; those not run yet are the rest of the batch and then the queue. */
  lemma FunctorsAreConserved(run: seq<Action>)
    requires CanRun(INIT, run)
    ensures var s := After(INIT, run); s.executed + s.Batch() + s.pending == Asked(run)
    ensures After(INIT, run).executed <= Asked(run)
    ensures |After(INIT, run).executed| == multiset(run)[RunNext]
  {
    RunKeepsInv(INIT, run);
    RunIsTold(run);
  }

  /** No wake-up is lost, with one exception: the loop blocks on waiting work exactly when
      that work was queued by its own thread before `loop()` and no peer has written. */
  lemma StuckIffEarly(run: seq<Action>)
    requires CanRun(INIT, run)
    ensures var s := After(INIT, run);
            s.Stuck() <==> s.pc.Polling? && s.early && s.counter == 0 && s.wakers == 0
  {
    RunKeepsInv(INIT, run);
  }

  predicate SelfPushed(run: seq<Action>) {
    exists i :: 0 <= i < |run| && run[i].SelfPush?
  }

  predicate PeersActed(run: seq<Action>) {
    exists i :: 0 <= i < |run| && (run[i].PeerPush? || run[i].PeerQuit?)
  }

  /** What the loop's state tells about its past, before and after it first takes the queue. */
  ghost predicate Remembers(s: State, run: seq<Action>) {
    if Swap in run then !s.early && !s.pc.BeforeLoop?
    else
      && !s.pc.Running?
      && (!s.pc.Dispatching? ==>
            (s.early <==> SelfPushed(run)) && (0 < s.counter + s.wakers <==> PeersActed(run)))
  }

  lemma StepRemembers(s: State, run: seq<Action>, a: Action)
    requires Remembers(s, run) && Enabled(s, a)
    ensures Remembers(Apply(s, a), run + [a])
  {
    Longer(run, a);
    hide SelfPushed, PeersActed;
  }

  lemma Longer(run: seq<Action>, a: Action)
    ensures SelfPushed(run + [a]) <==> SelfPushed(run) || a.SelfPush?
    ensures PeersActed(run + [a]) <==> PeersActed(run) || a.PeerPush? || a.PeerQuit?
  {
    var longer := run + [a];
    assert longer[|run|] == a && forall i :: 0 <= i < |run| ==> longer[i] == run[i];
  }

  lemma {:induction false} RunRemembers(run: seq<Action>)
    requires CanRun(INIT, run)
    ensures Remembers(After(INIT, run), run)
  {
    if run != [] {
      var shorter, last := run[..|run| - 1], run[|run| - 1];
      assert run == shorter + [last];
      SplitLast(INIT, shorter, last);
      RunRemembers(shorter);
      StepRemembers(After(INIT, shorter), shorter, last);
    }
  }

  lemma {:induction false} SplitLast(s: State, run: seq<Action>, a: Action)
    requires CanRun(s, run + [a])
    ensures CanRun(s, run) && Enabled(After(s, run), a) && After(s, run + [a]) == Apply(After(s, run), a)
    decreases |run|
  {
    if run == [] {
      assert ([] + [a])[1..] == [];
    } else {
      assert (run + [a])[1..] == run[1..] + [a];
      SplitLast(Apply(s, run[0]), run[1..], a);
    }
  }

  /** Told by what happened alone: the loop is stuck if and only if it polls for the first
      time, its own thread queued something before, and no peer has queued or quit. */
  lemma StuckIffAlone(run: seq<Action>)
    requires CanRun(INIT, run)
    ensures After(INIT, run).Stuck() <==>
              After(INIT, run).pc.Polling? && Swap !in run && SelfPushed(run) && !PeersActed(run)
  {
    StuckIffEarly(run);
    RunRemembers(run);
  }

  /** The exception happens. */
  lemma EarlyWorkIsStuck(f: Functor)
    ensures var run := [SelfPush(f), Start, Check]; CanRun(INIT, run) && After(INIT, run).Stuck()
  {
    var s1 := Apply(INIT, SelfPush(f));
    var s2 := Apply(s1, Start);
    assert CanRun(s2, [Check]) && CanRun(s1, [Start, Check]);
    assert [SelfPush(f), Start, Check][1..] == [Start, Check] && [Start, Check][1..] == [Check];
    assert After(s2, [Check]) == Apply(s2, Check);
  }

  /** A quit that another thread has begun is seen: when the loop polls, its wake-up is
      there or coming, and once the loop is back at the top it ends. */
  lemma QuitIsNotLost(run: seq<Action>)
    requires CanRun(INIT, run) && After(INIT, run).quit
    ensures var s := After(INIT, run);
            && (s.pc.Polling? ==> 0 < s.counter || 0 < s.wakers)
            && (s.pc.Top? ==> Apply(s, Check).pc.Done?)
  {
    RunKeepsInv(INIT, run);
  }

  /** From the top of the loop, unless it is told to quit, one turn runs everything that was
      queued before and leaves the eventfd empty. */
  lemma TurnRunsEverything(s: State) returns (turn: seq<Action>)
    requires Inv(s) && s.pc.Top? && !s.quit
    ensures CanRun(s, turn) && After(s, turn).pc.Top?
    ensures After(s, turn).executed == s.pushed && After(s, turn).pending == [] && After(s, turn).counter == 0
  {
    var polling := Apply(s, Check);
    var round := RoundRunsEverything(polling);
    Prepend(s, Check, round);
    turn := [Check] + round;
  }

  /** So does the rest of a turn from the wait in `poll`, whether a wake-up ends it or
      something else. */
  lemma RoundRunsEverything(s: State) returns (round: seq<Action>)
    requires Inv(s) && s.pc.Polling?
    ensures CanRun(s, round) && After(s, round).pc.Top?
    ensures After(s, round).executed == s.pushed && After(s, round).pending == [] && After(s, round).counter == 0
  {
    var a := Apply(s, PollReturns(0 < s.counter));
    var b := if 0 < s.counter then Apply(a, HandleWakeupRead) else a;
    var rest := RunBatch(Apply(b, Swap));
    assert s.executed + s.pending == s.pushed;
    Prepend(b, Swap, rest);
    rest := [Swap] + rest;
    if 0 < s.counter {
      Prepend(a, HandleWakeupRead, rest);
      rest := [HandleWakeupRead] + rest;
    }
    Prepend(s, PollReturns(0 < s.counter), rest);
    round := [PollReturns(0 < s.counter)] + rest;
  }

  lemma Prepend(s: State, a: Action, run: seq<Action>)
    requires Enabled(s, a) && CanRun(Apply(s, a), run)
    ensures CanRun(s, [a] + run) && After(s, [a] + run) == After(Apply(s, a), run)
  {
    assert ([a] + run)[1..] == run;
  }

  lemma {:induction false} RunBatch(s: State) returns (rest: seq<Action>)
    requires s.pc.Running? && s.pc.next <= |s.pc.batch|
    ensures CanRun(s, rest) && After(s, rest).pc.Top? && After(s, rest).pending == s.pending
    ensures After(s, rest).counter == s.counter
    ensures After(s, rest).executed == s.executed + s.Batch()
    decreases |s.pc.batch| - s.pc.next
  {
    hide CanRun, After, Apply, State.Batch;
    if s.pc.next == |s.pc.batch| {
      rest := [Finish];
      Single(s, Finish);
      LastOfBatch(s);
    } else {
      NextOfBatch(s);
      var tail := RunBatch(Apply(s, RunNext));
      rest := [RunNext] + tail;
      Prepend(s, RunNext, tail);
    }
  }

  lemma NextOfBatch(s: State)
    requires Enabled(s, RunNext)
    ensures var t := Apply(s, RunNext);
            && t.executed + t.Batch() == s.executed + s.Batch()
            && t == s.(pc := Running(s.pc.batch, s.pc.next + 1), executed := t.executed)
  {
    var f, rest := s.pc.batch[s.pc.next], Apply(s, RunNext).Batch();
    assert s.Batch() == [f] + rest;
    Shifted(s.executed, f, rest);
  }

  lemma Shifted(done: seq<Functor>, f: Functor, rest: seq<Functor>)
    ensures (done + [f]) + rest == done + ([f] + rest)
  {
  }

  lemma LastOfBatch(s: State)
    requires Enabled(s, Finish)
    ensures Apply(s, Finish) == s.(pc := Top) && s.executed + s.Batch() == s.executed
  {
  }

  lemma Single(s: State, a: Action)
    requires Enabled(s, a)
    ensures CanRun(s, [a]) && After(s, [a]) == Apply(s, a)
  {
    assert [a][1..] == [];
  }

  // ---- the loop itself ----

  /** The object, with its thread's place in the code as a ghost.  Whatever it does is a run
      of the steps above (`trace`), so every law of runs is a law of the object.  Peer
      threads act wherever the code lets them. */
  class Loop {
    var alreadyFunctors: seq<Functor>
    var quit: bool
    var callingPendingFunctors: bool
    var counter: nat  // the eventfd
    ghost var pc: Pc
    var wakers: nat   // peers between their push, or quit, and their write
    ghost var early: bool
    ghost var pushed: seq<Functor>
    ghost var executed: seq<Functor>
    ghost var trace: seq<Action>

    ghost function View(): State
      reads this
    {
      State(pc, alreadyFunctors, counter, quit, wakers, early, pushed, executed)
    }

    ghost predicate Valid()
      reads this
    {
      && CanRun(INIT, trace) && After(INIT, trace) == View()
      && (callingPendingFunctors <==> pc.Running?)
    }

    /** So the object never waits in `poll` on work that was queued after it had started,
        unless a wake-up is there or on its way. */
    lemma IsAwake()
      requires Valid() && pc == Polling && (quit || (alreadyFunctors != [] && !early))
      ensures 0 < counter || 0 < wakers
    {
      StuckIffEarly(trace);
      if quit {
        QuitIsNotLost(trace);
      }
    }

    /** What was asked of the object has been run, is being run or is queued, in order, and
        it was told to quit exactly if somebody did. */
    lemma RunsWhatWasAsked()
      requires Valid()
      ensures executed + View().Batch() + alreadyFunctors == Asked(trace)
      ensures quit <==> PeerQuit in trace || SelfQuit in trace
    {
      FunctorsAreConserved(trace);
      RunIsTold(trace);
    }

    constructor ()
      ensures Valid() && pc == BeforeLoop && trace == []
    {
      alreadyFunctors, quit, callingPendingFunctors, counter := [], false, false, 0;
      pc, wakers, early, pushed, executed, trace := BeforeLoop, 0, false, [], [], [];
    }

    /** Writes down the step just made. */
    ghost method Record(before: State, a: Action)
      requires CanRun(INIT, trace) && After(INIT, trace) == before
      requires Enabled(before, a) && View() == Apply(before, a)
      requires callingPendingFunctors <==> pc.Running?
      modifies this`trace
      ensures Valid() && trace == old(trace) + [a]
    {
      ExtendFrom(INIT, trace, a);
      trace := trace + [a];
    }

    /** What other threads do meanwhile. */
    method Peers()
      requires Valid()
      modifies this`alreadyFunctors, this`quit, this`counter, this`wakers, this`pushed, this`trace
      ensures Valid() && old(alreadyFunctors) <= alreadyFunctors && (old(quit) ==> quit)
    {
      hide CanRun, After;
      var steps: nat := *;
      while 0 < steps
        invariant Valid() && old(alreadyFunctors) <= alreadyFunctors && (old(quit) ==> quit)
      {
        ghost var before := View();
        var f: Functor := *;
        if {
          case true =>
            alreadyFunctors, pushed, wakers := alreadyFunctors + [f], pushed + [f], wakers + 1;
            Record(before, PeerPush(f));
          case true =>
            quit, wakers := true, wakers + 1;
            Record(before, PeerQuit);
          case 0 < wakers =>
            counter, wakers := counter + 1, wakers - 1;
            Record(before, PeerWake);
        }
        steps := steps - 1;
      }
    }

    /** queueInLoop on the loop's own thread. */
    method QueueInLoop(f: Functor)
      requires Valid() && View().Callable()
      modifies this`alreadyFunctors, this`counter, this`early, this`pushed, this`trace
      ensures Valid() && alreadyFunctors == old(alreadyFunctors) + [f]
      ensures counter == old(counter) + if pc.Running? then 1 else 0
    {
      ghost var before := View();
      alreadyFunctors, pushed := alreadyFunctors + [f], pushed + [f];
      early := early || pc.BeforeLoop?;
      if callingPendingFunctors {
        counter := counter + 1;  // wakeup
      }
      Record(before, SelfPush(f));
    }

    method Quit()
      requires Valid() && View().Callable()
      modifies this`quit, this`trace
      ensures Valid() && quit
    {
      ghost var before := View();
      quit := true;
      Record(before, SelfQuit);
    }

    /** Any functor, event handler or start-up code: it queues functors and quits at will. */
    method UserCode()
      requires Valid() && View().Callable()
      modifies this`alreadyFunctors, this`quit, this`counter, this`wakers, this`early, this`pushed, this`trace
      ensures Valid() && old(alreadyFunctors) <= alreadyFunctors
    {
      var calls: nat := *;
      while 0 < calls
        invariant Valid() && old(alreadyFunctors) <= alreadyFunctors
      {
        Peers();
        var f: Functor := *;
        if {
          case true => QueueInLoop(f);
          case true => Quit();
        }
        calls := calls - 1;
      }
      Peers();
    }

    method HandleWakeupRead()
      requires Valid() && pc == Dispatching(true)
      modifies this`counter, this`pc, this`trace
      ensures Valid() && pc == Dispatching(false) && counter == 0
    {
      ghost var before := View();
      counter, pc := 0, Dispatching(false);
      Record(before, Action.HandleWakeupRead);
    }

    /** Takes the queue as it stands and runs it, in order; what its functors and the peers
        queue meanwhile is for a later round. */
    method DoPendingFunctors()
      requires Valid() && pc == Dispatching(false)
      modifies this
      ensures Valid() && pc == Top
      ensures old(executed) + old(alreadyFunctors) <= executed
    {
      hide CanRun, After;
      Peers();
      ghost var before := View();
      var functors := alreadyFunctors;
      callingPendingFunctors, alreadyFunctors := true, [];
      pc, early := Running(functors, 0), false;
      Record(before, Swap);
      RunFunctors(functors);
      before := View();
      callingPendingFunctors, pc := false, Top;
      Record(before, Finish);
    }

    method RunFunctors(functors: seq<Functor>)
      requires Valid() && pc == Running(functors, 0)
      modifies this
      ensures Valid() && pc == Running(functors, |functors|) && executed == old(executed) + functors
    {
      for i := 0 to |functors|
        invariant Valid() && pc == Running(functors, i) && executed == old(executed) + functors[..i]
      {
        ghost var before := View();
        pc, executed := Running(functors, i + 1), executed + [functors[i]];
        Record(before, RunNext);
        assert functors[..i + 1] == functors[..i] + [functors[i]];
        UserCode();
      }
      assert functors[..|functors|] == functors;
    }

    /** The wait in `poll`, and the handling of the channels it reports. */
    method PollAndDispatch()
      requires Valid() && pc == Polling
      modifies this
      ensures Valid() && pc == Dispatching(false) && executed == old(executed)
      ensures old(alreadyFunctors) <= alreadyFunctors
    {
      Peers();
      ghost var before := View();
      var wake: bool := *;  // whether the wake-up channel is among those reported
      wake := wake && 0 < counter;
      pc := Dispatching(wake);
      Record(before, PollReturns(wake));
      UserCode();
      if wake {
        HandleWakeupRead();
      }
      UserCode();
    }

    /** One turn of `loop()`: either it ends because of a quit, or at the end of the turn
        everything has been run that was queued when the turn began. */
    method Turn() returns (ended: bool)
      requires Valid() && pc == Top
      modifies this
      ensures Valid()
      ensures if ended then pc == Done && quit else pc == Top && old(executed) + old(alreadyFunctors) <= executed
      ensures old(quit) ==> ended
      ensures ended ==> executed == old(executed)
    {
      Peers();
      ghost var before := View();
      pc := if quit then Done else Polling;
      Record(before, Check);
      if quit {
        return true;
      }
      PollAndDispatch();
      DoPendingFunctors();
      return false;
    }

    /** `loop()`, watched for any number of turns.  What was queued before it is run in the
        first; if it was told to quit before, there is none. */
    method Run(turns: nat) returns (made: nat)
      requires Valid() && pc == BeforeLoop
      modifies this
      ensures Valid() && if pc == Top then made == turns else pc == Done && quit && made < turns
      ensures 0 < made ==> old(executed) + old(alreadyFunctors) <= executed
      ensures made == 0 ==> executed == old(executed)
      ensures old(quit) ==> made == 0
    {
      ghost var before := View();
      pc := Top;
      Record(before, Start);
      made := 0;
      while made < turns
        invariant Valid() && pc == Top && made <= turns && (old(quit) ==> made == 0 && quit)
        invariant 0 < made ==> old(executed) + old(alreadyFunctors) <= executed
        invariant made == 0 ==> executed == old(executed) && alreadyFunctors == old(alreadyFunctors)
      {
        var ended := Turn();
        if ended {
          return;
        }
        made := made + 1;
      }
    }
  }
}
