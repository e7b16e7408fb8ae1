/** The pool as an object (`threadpool.cpp`): its sections under the lock, over the ring and
    the array of threads, and the moves of its threads between them.  Each is a step of the
    thread pool of module ThreadPool and each of those steps is one of them, so the object
    runs from creation to free in exactly the ways proved there. */
module PoolCode {
  import opened TaskRing
  import opened ThreadPool

  class Pool {
    const min: nat
    const max: nat
    const ring: Ring<nat>      // task_queue, queue_front, queue_rear, queue_size
    const threads: array<Slot>
    var live: nat
    var busy: nat
    var waitExit: nat
    var shutdown: bool
    // where the threads and callers are
    var workers: seq<Worker>
    var calls: seq<Call>
    var manager: Manager
    var destroyer: Destroyer
    // history
    var home: seq<nat>
    var accepted: seq<nat>
    var dequeued: seq<nat>
    var finished: seq<nat>
    ghost var trace: seq<Action>

    function View(): State
      requires ring.Valid()
      reads this, ring, ring.tasks, threads
    {
      State(min, max, ring.tasks.Length, workers, home, threads[..], calls, ring.Contents(), accepted, dequeued,
            finished, live, busy, waitExit, shutdown, manager, destroyer)
    }

    ghost function Start(): State {
      State(min, max, ring.tasks.Length, seq(min, _ => AtLock), seq(min, i => i),
            seq(max, i requires 0 <= i => if i < min then Thread(i) else Empty), [], [], [], [], [],
            min, 0, 0, false, Top, Idle)
    }

    ghost predicate Ready()
      reads this, ring
    {
      ring.Valid() && threads.Length == max && min <= max
    }

    /** What the pool has done so far is a run from its creation. */
    ghost predicate Valid()
      reads this, ring, ring.tasks, threads
    {
      Ready() && CanRun(Start(), trace) && After(Start(), trace) == View()
    }

    /** So whatever is proved of the reachable states is true of the object; in particular,
        if threads must be kept, a queued task has an active worker until shutdown. */
    lemma IsReachable()
      requires Valid()
      ensures ThreadPool.Inv(View())
      ensures 1 <= min && !shutdown && ring.size != 0 ==> exists w :: 0 <= w < |workers| && Active(workers[w])
    {
      InitIsInv(Start());
      RunKeepsInv(Start(), trace);
      hide ThreadPool.Inv;
      if 1 <= min && !shutdown && ring.size != 0 {
        var w := NoTaskIsStranded(Start(), trace);
        assert Active(workers[w]);
      }
    }

    /** `threadpool_create`, with every pthread_create succeeding.  It does not compare its
        arguments: the pool is fit for use if and only if there are slots for the first
        threads.  Otherwise the source writes past its array, where the model stops. */
    constructor (min: nat, max: nat, capacity: nat)
      ensures Valid() <==> min <= max
      ensures trace == [] && fresh(ring) && fresh(ring.tasks) && fresh(threads)
      ensures this.min == min && this.max == max && ring.tasks.Length == capacity
    {
      this.min, this.max := min, max;
      ring := new Ring(capacity);
      threads := new Slot[max](i => Empty);
      live, busy, waitExit, shutdown := min, 0, 0, false;
      workers, calls, manager := [], [], Top;
      home, destroyer, accepted, dequeued, finished, trace := [], Idle, [], [], [], [];
      new;
      StartWorkers();
    }

    method StartWorkers()
      requires threads.Length == max && workers == [] && home == []
      requires forall i :: 0 <= i < max ==> threads[i] == Empty
      modifies this`workers, this`home, threads
      ensures min <= max ==>
                workers == Start().workers && home == Start().home && threads[..] == Start().threads
    {
      for i := 0 to min
        invariant |workers| == |home| == i <= max
        invariant forall w :: 0 <= w < i ==> workers[w] == AtLock && home[w] == w
        invariant forall j :: 0 <= j < max ==> threads[j] == if j < i then Thread(j) else Empty
      {
        if i == max {
          return;
        }
        threads[i] := Thread(i);
        workers, home := workers + [AtLock], home + [i];
      }
    }

    ghost method Record(before: State, a: Action)
      requires Ready() && CanRun(Start(), trace) && After(Start(), trace) == before
      requires Enabled(before, a) && View() == Apply(before, a)
      modifies this`trace
      ensures Valid() && trace == old(trace) + [a]
    {
      ExtendFrom(Start(), trace, a);
      trace := trace + [a];
    }

    // ---- workers ----

    /** `threadpool_thread`, from the lock to the next wait, unlock or exit. */
    method WorkerSection(w: nat)
      requires Valid() && Enabled(View(), WorkerLocks(w))
      modifies this`workers, this`calls, this`live, this`waitExit, this`dequeued, this`trace, ring
      ensures Valid() && trace == old(trace) + [WorkerLocks(w)]
    {
      hide CanRun, After, Look, Resume;
      ghost var before := View();
      if workers[w] == Woken {
        ResumeWork(w);
      } else {
        LookForWork(w);
      }
      Record(before, WorkerLocks(w));
    }

    /** Back from a wait: retire if that was asked for. */
    method ResumeWork(w: nat)
      requires Ready() && w < |workers|
      modifies this`workers, this`calls, this`live, this`waitExit, this`dequeued, ring
      ensures Ready() && View() == Resume(old(View()), w)
    {
      hide Look;
      if waitExit > 0 && ring.size == 0 {
        waitExit := waitExit - 1;
        if live > min {
          live := live - 1;
          workers := workers[w := Exiting];
        } else {
          LookForWork(w);
        }
      } else {
        LookForWork(w);
      }
    }

    /** From the loop guard on: wait, leave, or dequeue. */
    method LookForWork(w: nat)
      requires Ready() && w < |workers|
      modifies this`workers, this`calls, this`dequeued, ring
      ensures Ready() && View() == Look(old(View()), w)
    {
      if ring.size == 0 && !shutdown {
        workers := workers[w := Parked];
      } else if shutdown {
        workers := workers[w := Exiting];
      } else {
        var task := ring.Take();
        dequeued := dequeued + [task];
        calls := RouseAll(calls);  // broadcast on queue_not_full
        workers := workers[w := Taken(task)];
      }
    }

    /** A wait returns by itself. */
    method WakeWorker(w: nat)
      requires Valid() && Enabled(View(), WorkerWakes(w))
      modifies this`workers, this`trace
      ensures Valid() && trace == old(trace) + [WorkerWakes(w)]
    {
      hide CanRun, After;
      ghost var before := View();
      workers := workers[w := Woken];
      Record(before, WorkerWakes(w));
    }

    /** The two sections under `thread_counter` around a task. */
    method StartTask(w: nat)
      requires Valid() && Enabled(View(), TaskStarts(w))
      modifies this`workers, this`busy, this`trace
      ensures Valid() && trace == old(trace) + [TaskStarts(w)]
    {
      hide CanRun, After;
      ghost var before := View();
      busy := busy + 1;
      workers := workers[w := Running(workers[w].task)];
      Record(before, TaskStarts(w));
    }

    method EndTask(w: nat)
      requires Valid() && Enabled(View(), TaskEnds(w))
      modifies this`workers, this`busy, this`finished, this`trace
      ensures Valid() && trace == old(trace) + [TaskEnds(w)]
    {
      hide CanRun, After;
      ghost var before := View();
      busy, finished := busy - 1, finished + [workers[w].task];
      workers := workers[w := AtLock];
      Record(before, TaskEnds(w));
    }

    method EndThread(w: nat)
      requires Valid() && Enabled(View(), ThreadEnds(w))
      modifies this`workers, this`trace
      ensures Valid() && trace == old(trace) + [ThreadEnds(w)]
    {
      hide CanRun, After;
      ghost var before := View();
      workers := workers[w := Exited];
      Record(before, ThreadEnds(w));
    }

    // ---- callers ----

    /** Somebody calls `threadpool_add`. */
    method Call() returns (c: nat)
      requires Valid() && destroyer != Freed
      modifies this`calls, this`trace
      ensures Valid() && trace == old(trace) + [NewCall] && c == |old(calls)|
    {
      hide CanRun, After;
      ghost var before := View();
      c := |calls|;
      calls := calls + [Entering];
      Record(before, NewCall);
    }

    /** From the lock to the next wait or return; `signalled` is the waiter that
        pthread_cond_signal picks. */
    method AddSection(c: nat, signalled: Slot)
      requires Valid() && Enabled(View(), CallLocks(c, signalled))
      modifies this`workers, this`calls, this`accepted, this`trace, ring, ring.tasks
      ensures Valid() && trace == old(trace) + [CallLocks(c, signalled)]
    {
      hide CanRun, After, Add;
      ghost var before := View();
      QueueTask(c, signalled);
      Record(before, CallLocks(c, signalled));
    }

    method QueueTask(c: nat, signalled: Slot)
      requires Ready() && Enabled(View(), CallLocks(c, signalled)) && ring.size <= ring.tasks.Length
      modifies this`workers, this`calls, this`accepted, ring, ring.tasks
      ensures Ready() && View() == Add(old(View()), c, signalled)
    {
      if ring.size == ring.tasks.Length && !shutdown {
        calls := calls[c := Waiting];
      } else if shutdown {
        calls := calls[c := Refused];
      } else {
        AcceptTask(c, signalled);
      }
    }

    method AcceptTask(c: nat, signalled: Slot)
      requires Ready() && !shutdown && c < |calls| && ring.size < ring.tasks.Length
      requires signalled == Empty || signalled.w < |workers|
      modifies this`workers, this`calls, this`accepted, ring, ring.tasks
      ensures Ready()
      ensures View() == old(View()).(calls := old(calls)[c := Accepted], queue := old(View()).queue + [c],
                accepted := old(accepted) + [c],
                workers := if signalled == Empty then old(workers) else old(workers)[signalled.w := Woken])
    {
      ring.Put(c);
      accepted := accepted + [c];
      calls := calls[c := Accepted];
      if signalled != Empty {
        workers := workers[signalled.w := Woken];
      }
    }

    method WakeCall(c: nat)
      requires Valid() && Enabled(View(), CallWakes(c))
      modifies this`calls, this`trace
      ensures Valid() && trace == old(trace) + [CallWakes(c)]
    {
      hide CanRun, After;
      ghost var before := View();
      calls := calls[c := Roused];
      Record(before, CallWakes(c));
    }

    // ---- the manager ----

    /** `adjust_thread`, from one of its moves to the next. */
    method Adjust(created: bool)
      requires Valid() && manager != Gone
      modifies this`workers, this`home, this`live, this`waitExit, this`manager, this`trace, threads
      ensures Valid() && trace == old(trace) + [ManagerMoves(created)]
    {
      hide CanRun, After, Grow;
      ghost var before := View();
      match manager {
        case Top => manager := if shutdown then Gone else Asleep;
        case Asleep => manager := if shutdown then Gone else Reading;
        case Reading => manager := Counted(ring.size, live);
        case Counted(size, live) => manager := Deciding(size, live, busy);
        case Deciding(size, live, busy) =>
          manager := if size >= MIN_WAIT_TASKS && live < max then Growing(0, 0, live, busy) else Shrinking(live, busy);
        case Growing(_, _, _, _) => GrowTurn(created);
        case Shrinking(_, _) => ShrinkSection();
      }
      Record(before, ManagerMoves(created));
    }

    /** One turn of the loop that creates threads, or its end. */
    method GrowTurn(created: bool)
      requires Ready() && manager.Growing?
      modifies this`workers, this`home, this`live, this`manager, threads
      ensures Ready() && View() == Grow(old(View()), created)
    {
      var i := manager.i;
      if i < max && manager.add < VARY && live < max {
        if threads[i] == Empty || (threads[i].w < |workers| && workers[threads[i].w] == Exited) {
          if created {
            CreateThread(i);
          } else {
            threads[i] := Empty;
            manager := manager.(i := i + 1);
          }
        } else {
          manager := manager.(i := i + 1);
        }
      } else {
        manager := Shrinking(manager.live, manager.busy);
      }
    }

    method CreateThread(i: nat)
      requires Ready() && manager.Growing? && i < max
      modifies this`workers, this`home, this`live, this`manager, threads
      ensures Ready() && View() ==
                old(View()).(threads := old(threads[..])[i := Thread(|old(workers)|)],
                  workers := old(workers) + [AtLock], home := old(home) + [i], live := old(live) + 1,
                  manager := old(manager).(i := i + 1, add := old(manager).add + 1))
    {
      threads[i] := Thread(|workers|);
      workers, home := workers + [AtLock], home + [i];
      live := live + 1;
      manager := manager.(i := i + 1, add := manager.add + 1);
    }

    /** The whole loop, while the manager holds the lock; each creation may fail, and other
        threads do between its turns what needs no lock. */
    method GrowSection()
      requires Valid() && manager.Growing? && manager.i <= max
      modifies this, ring, ring.tasks, threads
      ensures Valid() && manager == Shrinking(old(manager.live), old(manager.busy))
      ensures old(trace) <= trace && forall i :: |old(trace)| <= i < |trace| ==> KeepsOut(trace[i])
    {
      while manager.Growing?
        invariant Valid() && old(trace) <= trace
        invariant forall i :: |old(trace)| <= i < |trace| ==> KeepsOut(trace[i])
        invariant manager.Growing? ==>
                    manager.i <= max && manager.live == old(manager.live) && manager.busy == old(manager.busy)
        invariant !manager.Growing? ==> manager == Shrinking(old(manager.live), old(manager.busy))
        decreases if manager.Growing? then max + 1 - manager.i else 0
      {
        hide CanRun, After, Apply, Enabled;
        Others();
        var created: bool := *;
        ghost var before := View();
        GrowMoves(before, created);
        ghost var t := trace;
        Adjust(created);
        ExtendFrom(Start(), t, ManagerMoves(created));
      }
    }

    /** The section that asks idle threads to retire. */
    method ShrinkSection()
      requires Ready() && manager.Shrinking?
      modifies this`workers, this`waitExit, this`manager
      ensures Ready() && View() == Manage(old(View()), false)
    {
      if manager.busy * 2 < manager.live && manager.live > min {
        waitExit := VARY;
        workers := WakeAll(workers);
      }
      manager := Top;
    }

    // ---- destruction ----

    /** `threadpool_destroy`, from one of its moves to the next: the section that sets the
        flag, and the joins one by one. */
    method DestroyMove()
      requires Valid() && Enabled(View(), DestroyerMoves)
      modifies this`workers, this`shutdown, this`destroyer, this`trace
      ensures Valid() && trace == old(trace) + [DestroyerMoves]
    {
      hide CanRun, After;
      ghost var before := View();
      match destroyer {
        case Idle =>
          shutdown := true;
          workers := WakeAll(workers);
          destroyer := JoiningManager;
        case JoiningManager => destroyer := Joining(0);
        case Joining(i) => destroyer := if i < max then Joining(i + 1) else Freed;
      }
      Record(before, DestroyerMoves);
    }

    // ---- the pool under any scheduler ----

    /** Every step of the pool can be made, and making it is that step. */
    method Perform(a: Action)
      requires Valid() && Enabled(View(), a)
      modifies this, ring, ring.tasks, threads
      ensures Valid() && trace == old(trace) + [a] && View() == Apply(old(View()), a)
    {
      hide CanRun, After, Apply;
      ghost var before := trace;
      match a {
        case WorkerLocks(w) => WorkerSection(w);
        case WorkerWakes(w) => WakeWorker(w);
        case TaskStarts(w) => StartTask(w);
        case TaskEnds(w) => EndTask(w);
        case ThreadEnds(w) => EndThread(w);
        case NewCall => var _ := Call();
        case CallLocks(c, signalled) => AddSection(c, signalled);
        case CallWakes(c) => WakeCall(c);
        case ManagerMoves(created) => Adjust(created);
        case DestroyerMoves => DestroyMove();
      }
      ExtendFrom(Start(), before, a);
    }

    /** The object can follow every run of the pool. */
    method Follow(run: seq<Action>)
      requires Valid() && CanRun(View(), run)
      modifies this, ring, ring.tasks, threads
      ensures Valid() && trace == old(trace) + run
    {
      hide Apply, Enabled;
      for i := 0 to |run|
        invariant Valid() && trace == old(trace) + run[..i] && CanRun(View(), run[i..])
      {
        assert run[i..][0] == run[i] && run[i..][1..] == run[i + 1..];
        Perform(run[i]);
        assert run[..i + 1] == run[..i] + [run[i]];
      }
      assert run[..|run|] == run;
    }

    /** Any scheduler, any callers, for any time.  After shutdown the pool only comes nearer
        its end, and its queue stays as it is. */
    method Run()
      requires Valid()
      modifies this, ring, ring.tasks, threads
      ensures Valid() && old(trace) <= trace
      ensures old(shutdown) ==>
                && shutdown && Remaining(View()) <= old(Remaining(View()))
                && View().queue == old(View().queue) && dequeued == old(dequeued)
    {
      hide CanRun, After, Apply, Enabled, Remaining;
      var moves: nat := *;
      while 0 < moves
        invariant Valid() && old(trace) <= trace
        invariant old(shutdown) ==>
                    && shutdown && Remaining(View()) <= old(Remaining(View()))
                    && View().queue == old(View().queue) && dequeued == old(dequeued)
      {
        var a: Action := *;
        if Enabled(View(), a) {
          IsReachable();
          ghost var before := View();
          Perform(a);
          if before.shutdown {
            MoveIsProgress(before, a);
          }
        }
        moves := moves - 1;
      }
    }

    /** The same while the manager is inside its section: nobody else takes the lock. */
    method Others()
      requires Valid() && manager.Growing?
      modifies this, ring, ring.tasks, threads
      ensures Valid() && manager == old(manager) && old(trace) <= trace
      ensures forall i :: |old(trace)| <= i < |trace| ==> KeepsOut(trace[i])
    {
      hide CanRun, After, Apply, Enabled;
      var moves: nat := *;
      while 0 < moves
        invariant Valid() && manager == old(manager) && old(trace) <= trace
        invariant forall i :: |old(trace)| <= i < |trace| ==> KeepsOut(trace[i])
      {
        var a: Action := *;
        if !a.ManagerMoves? && Enabled(View(), a) {
          IsReachable();
          LockIsHeld(View(), a);
          Perform(a);
        }
        moves := moves - 1;
      }
    }

    /** `threadpool_destroy`: whatever the scheduler and the callers do meanwhile, it returns
        with the pool freed, when every thread has exited; what was queued at its beginning
        is still queued, and every task taken from the queue has been run. */
    method Destroy()
      requires Valid() && destroyer == Idle && Enabled(View(), DestroyerMoves)
      modifies this, ring, ring.tasks, threads
      ensures Valid() && destroyer == Freed && manager == Gone
      ensures forall w :: 0 <= w < |workers| ==> workers[w] == Exited
      ensures View().queue == old(View().queue) && dequeued == old(dequeued)
      ensures multiset(finished) == multiset(dequeued)
    {
      hide CanRun, After, Remaining, NextMove;
      Perform(DestroyerMoves);
      while destroyer != Freed
        invariant Valid() && shutdown
        invariant View().queue == old(View().queue) && dequeued == old(dequeued)
        decreases Remaining(View())
      {
        ghost var left := Remaining(View());
        Run();
        if destroyer != Freed {
          IsReachable();
          ghost var before := View();
          TeardownIsNeverStuck(View());
          var a := NextMove(View());
          Perform(a);
          MoveIsProgress(before, a);
          assert Remaining(View()) < left;
        } else {
          break;
        }
      }
      FreedAfterEveryThread(Start(), trace);
    }
  }

  /** The manager moves, or another thread does without taking the pool's lock. */
  predicate KeepsOut(a: Action) {
    !a.WorkerLocks? && !a.CallLocks? && !a.DestroyerMoves?
  }

  lemma LockIsHeld(s: State, a: Action)
    requires s.manager.Growing? && Enabled(s, a) && !a.ManagerMoves?
    requires s.destroyer.Idle? || s.destroyer.JoiningManager?
    ensures KeepsOut(a) && Apply(s, a).manager == s.manager
  {
  }

  lemma GrowMoves(s: State, created: bool)
    requires s.manager.Growing? && Enabled(s, ManagerMoves(created))
    ensures var m, t := s.manager, Apply(s, ManagerMoves(created)).manager;
            if t.Growing? then t.i == m.i + 1 && t.live == m.live && t.busy == m.busy && m.i < s.max
            else t == Shrinking(m.live, m.busy)
  {
  }
}
