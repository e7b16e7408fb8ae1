/** What each kind of step of the thread pool does to workers and callers, told apart from
    how it is computed: who wakes and why, who retires and when, which answer a caller gets,
    and when the manager grows or shrinks the pool. */
module PoolLaws {
  import opened ThreadPool

  // ---- who wakes ----

  /** pthread_cond_broadcast on queue_not_empty: to retire idle threads, and to shut down. */
  predicate Broadcasts(s: State, a: Action) {
    || (a.ManagerMoves? && s.manager.Shrinking? && s.manager.busy * 2 < s.manager.live && s.min < s.manager.live)
    || (a.DestroyerMoves? && s.destroyer == Idle)
  }

  /** A waiting worker wakes exactly on its own, by the signal of a call whose task was
      accepted, or by a broadcast, and then looks for work again; any other worker moves only
      by itself. */
  lemma WhoWakes(s: State, a: Action, w: nat)
    requires Enabled(s, a) && w < |s.workers|
    ensures var t := Apply(s, a);
            && w < |t.workers|
            && (s.workers[w] == Parked ==>
                  t.workers[w] ==
                    if a == WorkerWakes(w) || Broadcasts(s, a)
                       || (a.CallLocks? && a.signalled == Thread(w) && t.calls[a.c] == Accepted)
                    then Woken else Parked)
            && (s.workers[w] != Parked && !(OfWorker(a) && a.w == w) ==> t.workers[w] == s.workers[w])
  {
    hide Grow, Look, Resume, Vacant;
    if OfWorker(a) {
      WorkerKeepsItsTask(s, a);
    } else if a.ManagerMoves? && s.manager.Growing? {
      GrowingKeepsWorkers(s, a.created);
    }
  }

  lemma GrowingKeepsWorkers(s: State, created: bool)
    requires s.manager.Growing?
    ensures s.workers <= Grow(s, created).workers
    ensures Grow(s, created).calls == s.calls && Grow(s, created).dequeued == s.dequeued
  {
  }

  /** A waiting caller wakes exactly on its own, or when a task leaves the queue, and then all
      do; a caller that has its answer keeps it. */
  lemma WhoIsRoused(s: State, a: Action, c: nat)
    requires Enabled(s, a) && c < |s.calls|
    ensures var t := Apply(s, a);
            && c < |t.calls|
            && (s.calls[c] == Waiting ==>
                  t.calls[c] == if a == CallWakes(c) || t.dequeued != s.dequeued then Roused else Waiting)
            && (s.calls[c] != Waiting && !(a.CallLocks? && a.c == c) ==> t.calls[c] == s.calls[c])
  {
    hide Grow, Vacant, WakeAll;
    if a.WorkerLocks? && s.queue != [] {
      TakingIsSeen(s);
    } else if a.ManagerMoves? && s.manager.Growing? {
      GrowingKeepsWorkers(s, a.created);
    }
  }

  lemma TakingIsSeen(s: State)
    requires s.queue != []
    ensures s.dequeued + [s.queue[0]] != s.dequeued
  {
    assert |s.dequeued + [s.queue[0]]| == |s.dequeued| + 1;
  }

  // ---- who retires ----

  /** A woken worker that finds the queue empty uses up one of the places set for retiring
      threads, and retires exactly if the pool then has more threads than it must keep. */
  predicate Spends(s: State, w: nat)
    requires w < |s.workers|
  {
    s.workers[w] == Woken && 0 < s.waitExit && s.queue == []
  }

  /** A worker with the lock leaves exactly if it retires or the pool shuts down; otherwise it
      takes the oldest task, if there is one, and waits if there is none. */
  lemma WhatALockedWorkerDoes(s: State, w: nat)
    requires Enabled(s, WorkerLocks(w))
    ensures var t := Apply(s, WorkerLocks(w)); var retires := Spends(s, w) && s.min < s.live;
            && (t.workers[w] == Exiting <==> retires || s.shutdown)
            && (t.workers[w] == Parked <==> !retires && !s.shutdown && s.queue == [])
            && (t.workers[w].Taken? <==> !s.shutdown && s.queue != [])
            && (t.workers[w].Taken? ==> s.queue == [t.workers[w].task] + t.queue)
            && t.live == s.live - (if retires then 1 else 0)
            && t.waitExit == s.waitExit - (if Spends(s, w) then 1 else 0)
  {
  }

  /** The number of live threads changes only by creating and by retiring. */
  lemma WhenLiveChanges(s: State, a: Action)
    requires Enabled(s, a) && Apply(s, a).live != s.live
    ensures var t := Apply(s, a);
            || (a.WorkerLocks? && s.workers[a.w] == Woken && t.workers[a.w] == Exiting && t.live == s.live - 1)
            || (a == ManagerMoves(true) && |t.workers| == |s.workers| + 1 && t.live == s.live + 1)
  {
  }

  // ---- what a caller is answered ----

  /** With the lock, a caller is refused exactly after shutdown, and waits exactly while the
      queue is full; otherwise its task joins the back of the queue. */
  lemma WhatACallerIsAnswered(s: State, c: nat, signalled: Slot)
    requires Enabled(s, CallLocks(c, signalled))
    ensures var t := Apply(s, CallLocks(c, signalled));
            && |t.calls| == |s.calls|
            && (t.calls[c] == Refused <==> s.shutdown)
            && (t.calls[c] == Waiting <==> !s.shutdown && |s.queue| == s.capacity)
            && (t.calls[c] == Accepted <==> !s.shutdown && |s.queue| != s.capacity)
            && (t.calls[c] == Accepted ==> t.queue == s.queue + [c] && t.accepted == s.accepted + [c])
            && (t.calls[c] != Accepted ==> t.queue == s.queue && t.accepted == s.accepted)
  {
  }

  /** Nothing else accepts, and only a worker takes from the queue. */
  lemma OnlyCallersAccept(s: State, a: Action)
    requires Enabled(s, a) && !a.CallLocks?
    ensures var t := Apply(s, a);
            && t.accepted == s.accepted && (!a.WorkerLocks? ==> t.queue == s.queue)
            && |t.calls| == |s.calls| + (if a.NewCall? then 1 else 0)
            && (a.NewCall? ==> t.calls[|s.calls|] == Entering)
  {
  }

  /** In every run, a call that was refused was refused because of the shutdown. */
  lemma {:induction false} RefusedMeansShutdown(s: State, run: seq<Action>)
    requires CanRun(s, run) && RefusedInTime(s)
    ensures RefusedInTime(After(s, run))
    decreases |run|
  {
    hide RefusedInTime, Apply, Enabled;
    if run != [] {
      var t := Apply(s, run[0]);
      StepRefuses(s, run[0]);
      RefusedMeansShutdown(t, run[1..]);
    }
  }

  predicate RefusedInTime(s: State) {
    forall c :: 0 <= c < |s.calls| && s.calls[c] == Refused ==> s.shutdown
  }

  lemma StepRefuses(s: State, a: Action)
    requires Enabled(s, a) && RefusedInTime(s)
    ensures RefusedInTime(Apply(s, a))
  {
  }

  // ---- when the manager grows and shrinks the pool ----

  /** Until shutdown it goes round: sleep, read the numbers as they are when it looks, create
      threads exactly if at least ten tasks waited and there was room, and retire some. */
  lemma WhatTheManagerDecides(s: State, created: bool)
    requires Enabled(s, ManagerMoves(created))
    ensures var m, t := s.manager, Apply(s, ManagerMoves(created)).manager;
            && (t.Counted? ==> m == Reading && t.size == |s.queue| && t.live == s.live)
            && (t.Deciding? ==> m == Counted(t.size, t.live) && t.busy == s.busy)
            && (t.Growing? && !m.Growing? ==> t.i == t.add == 0)
            && (m.Deciding? ==> (t.Growing? <==> 10 <= m.size && m.live < s.max) && (t.Growing? || t.Shrinking?))
            && ((m.Deciding? || m.Growing?) && (t.Growing? || t.Shrinking?) ==> t.live == m.live && t.busy == m.busy)
            && (t == Gone <==> s.shutdown && (m == Top || m == Asleep))
            && (t == Asleep <==> !s.shutdown && m == Top) && (t == Reading <==> !s.shutdown && m == Asleep)
            && (m == Reading ==> t.Counted?) && (m.Counted? ==> t.Deciding?) && (t == Top <==> m.Shrinking?)
  {
  }

  /** Which slot the creating loop fills: the one it has come to, if it has no thread, unless
      ten were created already or the pool is full. */
  predicate Fills(s: State) {
    && s.manager.Growing? && s.manager.i < s.max && s.manager.i < |s.threads|
    && s.manager.add < 10 && s.live < s.max && Vacant(s.threads[s.manager.i], s.workers)
  }

  /** A thread is created exactly there, if the system creates it, and goes to that slot; a
      failed creation leaves the slot empty; the other slots keep their threads. */
  lemma WhereThreadsAreCreated(s: State, a: Action, i: nat)
    requires Enabled(s, a) && i < |s.threads|
    ensures var t := Apply(s, a);
            && |t.threads| == |s.threads|
            && |t.workers| == |s.workers| + (if a == ManagerMoves(true) && Fills(s) then 1 else 0)
            && (|t.workers| != |s.workers| ==> t.workers[|s.workers|] == AtLock)
            && t.threads[i] ==
               if !(a.ManagerMoves? && Fills(s) && s.manager.i == i) then s.threads[i]
               else if a.created then Thread(|s.workers|) else Empty
  {
    hide Enabled, Apply, Grow;
    if a.ManagerMoves? && s.manager.Growing? {
      GrowingFills(s, a.created, i);
    } else {
      OthersCreateNothing(s, a);
    }
  }

  lemma GrowingFills(s: State, created: bool, i: nat)
    requires s.manager.Growing? && i < |s.threads|
    ensures var t := Apply(s, ManagerMoves(created));
            && |t.threads| == |s.threads|
            && |t.workers| == |s.workers| + (if created && Fills(s) then 1 else 0)
            && (|t.workers| != |s.workers| ==> t.workers[|s.workers|] == AtLock)
            && t.threads[i] == if !(Fills(s) && s.manager.i == i) then s.threads[i]
                               else if created then Thread(|s.workers|) else Empty
  {
    hide Vacant;
  }

  lemma OthersCreateNothing(s: State, a: Action)
    requires Enabled(s, a) && !(a.ManagerMoves? && s.manager.Growing?)
    ensures Apply(s, a).threads == s.threads && |Apply(s, a).workers| == |s.workers|
  {
  }

  /** The loop ends exactly when ten are created, the pool is full, or every slot was seen. */
  lemma WhenGrowingEnds(s: State, created: bool)
    requires s.manager.Growing? && |s.threads| == s.max
    ensures var m, t := s.manager, Apply(s, ManagerMoves(created)).manager;
            && (t.Growing? <==> m.i < s.max && m.add < 10 && s.live < s.max)
            && (t.Growing? ==> t.i == m.i + 1 && t.add == m.add + if created && Fills(s) then 1 else 0)
  {
  }

  /** One pass of the manager creates at most ten threads, and looks at each slot once. */
  predicate GrowsInBounds(s: State) {
    s.manager.Growing? ==> s.manager.add <= 10 && s.manager.add <= s.manager.i <= s.max
  }

  lemma {:induction false} GrowingStaysInBounds(s: State, run: seq<Action>)
    requires GrowsInBounds(s) && CanRun(s, run)
    ensures GrowsInBounds(After(s, run))
    decreases |run|
  {
    hide GrowsInBounds;
    hide Apply, Enabled;
    if run != [] {
      StepGrowsInBounds(s, run[0]);
      GrowingStaysInBounds(Apply(s, run[0]), run[1..]);
    }
  }

  lemma StepGrowsInBounds(s: State, a: Action)
    requires GrowsInBounds(s) && Enabled(s, a)
    ensures GrowsInBounds(Apply(s, a))
  {
  }

  /** Places for retiring threads are set, to ten, exactly when at the time of the numbers
      fewer than half of the threads were busy and there were more than must be kept. */
  lemma WhenThreadsAreRetired(s: State, a: Action)
    requires Enabled(s, a)
    ensures var t := Apply(s, a);
            && (a.ManagerMoves? && Broadcasts(s, a) ==> t.waitExit == 10)
            && (!(a.ManagerMoves? && Broadcasts(s, a)) ==>
                  t.waitExit == s.waitExit - if a.WorkerLocks? && Spends(s, a.w) then 1 else 0)
            && (t.shutdown <==> s.shutdown || (a.DestroyerMoves? && s.destroyer == Idle))
  {
  }
}
