/** The thread pool (`threadpool.cpp`) as its threads interleave.  A step is one section
    under the pool's lock, or one thread's move between two sections; condition waits are
    explicit, and waiters may also wake on their own.  The queue is the first-in first-out
    queue that the ring implements (module TaskRing).

    Workers and `threadpool_add` calls are numbered by creation, without bound.  A task is
    named by the call that adds it. */
module ThreadPool {

  const VARY := 10           // DEFAULT_THREAD_VARY
  const MIN_WAIT_TASKS := 10 // MIN_WAIT_TASK_NUM

  datatype Worker =
    | AtLock             // about to lock the pool and look for work
    | Parked             // waiting on queue_not_empty
    | Woken              // woken there, lock not yet retaken
    | Taken(task: nat)   // holds a task, not yet counted as busy
    | Running(task: nat) // counted as busy
    | Exiting            // past its last section
    | Exited

  datatype Call =
    | Entering
    | Waiting  // on queue_not_full
    | Roused
    | Accepted // returned 0
    | Refused  // returned -1

  datatype Manager =
    | Top | Asleep | Reading
    | Counted(size: nat, live: nat)
    | Deciding(size: nat, live: nat, busy: nat)
    | Growing(i: nat, add: nat, live: nat, busy: nat) // inside its section: the lock is held
    | Shrinking(live: nat, busy: nat)
    | Gone

  datatype Destroyer = Idle | JoiningManager | Joining(i: nat) | Freed

  datatype Slot = Empty | Thread(w: nat)

  datatype State = State(
    min: nat, max: nat, capacity: nat,
    workers: seq<Worker>, home: seq<nat>, threads: seq<Slot>,
    calls: seq<Call>, queue: seq<nat>, accepted: seq<nat>, dequeued: seq<nat>, finished: seq<nat>,
    live: nat, busy: nat, waitExit: nat, shutdown: bool,
    manager: Manager, destroyer: Destroyer)
  {
    predicate Free() {
      !manager.Growing? && destroyer != Freed
    }

    function Put(w: nat, k: Worker): State
      requires w < |workers|
    {
      this.(workers := workers[w := k])
    }
  }

  /** No thread, or one that has ended: the manager may reuse the slot, and a join of it
      returns at once. */
  predicate Vacant(slot: Slot, workers: seq<Worker>) {
    slot == Empty || (slot.w < |workers| && workers[slot.w] == Exited)
  }

  /** pthread_cond_broadcast on queue_not_empty. */
  function WakeAll(workers: seq<Worker>): (r: seq<Worker>)
    ensures |r| == |workers|
    ensures forall i :: 0 <= i < |r| ==> r[i] == if workers[i] == Parked then Woken else workers[i]
  {
    seq(|workers|, i requires 0 <= i < |workers| => if workers[i] == Parked then Woken else workers[i])
  }

  /** pthread_cond_broadcast on queue_not_full. */
  function RouseAll(calls: seq<Call>): (r: seq<Call>)
    ensures |r| == |calls|
    ensures forall i :: 0 <= i < |r| ==> r[i] == if calls[i] == Waiting then Roused else calls[i]
  {
    seq(|calls|, i requires 0 <= i < |calls| => if calls[i] == Waiting then Roused else calls[i])
  }

  datatype Action =
    | WorkerLocks(w: nat)
    | WorkerWakes(w: nat)  // on its own
    | TaskStarts(w: nat) | TaskEnds(w: nat)
    | ThreadEnds(w: nat)
    | NewCall
    | CallLocks(c: nat, signalled: Slot) // with the worker its signal wakes, if any waits
    | CallWakes(c: nat)    // on its own
    | ManagerMoves(created: bool)        // whether pthread_create succeeds
    | DestroyerMoves

  predicate Enabled(s: State, a: Action) {
    match a
    case WorkerLocks(w) => s.Free() && w < |s.workers| && s.workers[w] in {AtLock, Woken}
    case WorkerWakes(w) => w < |s.workers| && s.workers[w] == Parked
    case TaskStarts(w) => w < |s.workers| && s.workers[w].Taken?
    case TaskEnds(w) => w < |s.workers| && s.workers[w].Running? && 0 < s.busy
    case ThreadEnds(w) => w < |s.workers| && s.workers[w] == Exiting
    case NewCall => s.destroyer != Freed
    case CallLocks(c, signalled) =>
      && s.Free() && c < |s.calls| && s.calls[c] in {Entering, Roused}
      && (match signalled
          case Empty => forall w :: 0 <= w < |s.workers| ==> s.workers[w] != Parked
          case Thread(w) => w < |s.workers| && s.workers[w] == Parked)
    case CallWakes(c) => c < |s.calls| && s.calls[c] == Waiting
    case ManagerMoves(_) => s.manager != Gone
    case DestroyerMoves =>
      match s.destroyer
      case Idle => s.Free()
      case JoiningManager => s.manager == Gone
      case Joining(i) => i < |s.threads| ==> Vacant(s.threads[i], s.workers)
      case Freed => false
  }

  /** From the loop guard on: park, leave, or dequeue. */
  function Look(s: State, w: nat): State
    requires w < |s.workers|
  {
    if s.shutdown then
      s.Put(w, Exiting)
    else if s.queue == [] then
      s.Put(w, Parked)
    else
      s.Put(w, Taken(s.queue[0]))
       .(queue := s.queue[1..], dequeued := s.dequeued + [s.queue[0]], calls := RouseAll(s.calls))
  }

  /** A woken worker first sees whether it is to retire. */
  function Resume(s: State, w: nat): State
    requires w < |s.workers|
  {
    if s.waitExit > 0 && s.queue == [] then
      var t := s.(waitExit := s.waitExit - 1);
      if s.live > s.min then t.Put(w, Exiting).(live := s.live - 1) else Look(t, w)
    else
      Look(s, w)
  }

  function Add(s: State, c: nat, signalled: Slot): State
    requires Enabled(s, CallLocks(c, signalled))
  {
    if s.shutdown then
      s.(calls := s.calls[c := Refused])
    else if |s.queue| == s.capacity then
      s.(calls := s.calls[c := Waiting])
    else
      var t := s.(calls := s.calls[c := Accepted], queue := s.queue + [c], accepted := s.accepted + [c]);
      if signalled == Empty then t else t.Put(signalled.w, Woken)
  }

  /** One iteration of the loop that creates threads, or its end. */
  function Grow(s: State, created: bool): State
    requires s.manager.Growing?
  {
    var m := s.manager;
    if m.i < s.max && m.i < |s.threads| && m.add < VARY && s.live < s.max then
      if !Vacant(s.threads[m.i], s.workers) then
        s.(manager := m.(i := m.i + 1))
      else if created then
        s.(threads := s.threads[m.i := Thread(|s.workers|)], workers := s.workers + [AtLock], home := s.home + [m.i],
           live := s.live + 1, manager := m.(i := m.i + 1, add := m.add + 1))
      else
        s.(threads := s.threads[m.i := Empty], manager := m.(i := m.i + 1))
    else
      s.(manager := Shrinking(m.live, m.busy))
  }

  function Manage(s: State, created: bool): State
    requires s.manager != Gone
  {
    match s.manager
    case Top => s.(manager := if s.shutdown then Gone else Asleep)
    case Asleep => s.(manager := if s.shutdown then Gone else Reading)
    case Reading => s.(manager := Counted(|s.queue|, s.live))
    case Counted(size, live) => s.(manager := Deciding(size, live, s.busy))
    case Deciding(size, live, busy) =>
      s.(manager := if size >= MIN_WAIT_TASKS && live < s.max then Growing(0, 0, live, busy) else Shrinking(live, busy))
    case Growing(_, _, _, _) => Grow(s, created)
    case Shrinking(live, busy) =>
      if busy * 2 < live && live > s.min then
        s.(waitExit := VARY, workers := WakeAll(s.workers), manager := Top)
      else
        s.(manager := Top)
  }

  function Destroy(s: State): State
    requires s.destroyer != Freed
  {
    match s.destroyer
    case Idle => s.(shutdown := true, workers := WakeAll(s.workers), destroyer := JoiningManager)
    case JoiningManager => s.(destroyer := Joining(0))
    case Joining(i) => s.(destroyer := if i < |s.threads| then Joining(i + 1) else Freed)
  }

  function Apply(s: State, a: Action): State
    requires Enabled(s, a)
  {
    match a
    case WorkerLocks(w) => if s.workers[w] == Woken then Resume(s, w) else Look(s, w)
    case WorkerWakes(w) => s.Put(w, Woken)
    case TaskStarts(w) => s.Put(w, Running(s.workers[w].task)).(busy := s.busy + 1)
    case TaskEnds(w) => s.Put(w, AtLock).(busy := s.busy - 1, finished := s.finished + [s.workers[w].task])
    case ThreadEnds(w) => s.Put(w, Exited)
    case NewCall => s.(calls := s.calls + [Entering])
    case CallLocks(c, signalled) => Add(s, c, signalled)
    case CallWakes(c) => s.(calls := s.calls[c := Roused])
    case ManagerMoves(created) => Manage(s, created)
    case DestroyerMoves => Destroy(s)
  }

  /** `threadpool_create` with every thread started: one worker in each of the first slots. */
  predicate Init(s: State) {
    && s.min <= s.max
    && |s.workers| == |s.home| == s.min && |s.threads| == s.max
    && (forall w :: 0 <= w < s.min ==> s.workers[w] == AtLock && s.home[w] == w)
    && (forall i :: 0 <= i < s.max ==> s.threads[i] == if i < s.min then Thread(i) else Empty)
    && s.calls == [] && s.queue == [] && s.accepted == [] && s.dequeued == [] && s.finished == []
    && s.live == s.min && s.busy == 0 && s.waitExit == 0 && !s.shutdown
    && s.manager == Top && s.destroyer == Idle
  }

  // ---- counting workers ----

  datatype Tally = Alive | Awake | Busy | Rank | Holding(task: nat)

  function Weight(k: Worker, t: Tally): nat {
    match t
    case Alive => if k in {Exiting, Exited} then 0 else 1
    case Awake => if k in {AtLock, Woken} then 1 else 0
    case Busy => if k.Running? then 1 else 0
    case Holding(c) => if (k.Taken? || k.Running?) && k.task == c then 1 else 0
    case Rank => // how many more moves the thread makes once the pool shuts down
      match k
      case Taken(_) => 4
      case Running(_) => 3
      case Exiting => 1
      case Exited => 0
      case _ => 2
  }

  function Sum(ws: seq<Worker>, t: Tally, n: nat): nat
    requires n <= |ws|
  {
    if n == 0 then 0 else Sum(ws, t, n - 1) + Weight(ws[n - 1], t)
  }

  function Total(ws: seq<Worker>, t: Tally): nat {
    Sum(ws, t, |ws|)
  }

  lemma {:induction false} SumOfEqual(ws: seq<Worker>, vs: seq<Worker>, t: Tally, n: nat)
    requires n <= |ws| && n <= |vs|
    requires forall i :: 0 <= i < n ==> Weight(ws[i], t) == Weight(vs[i], t)
    ensures Sum(ws, t, n) == Sum(vs, t, n)
  {
    if n != 0 {
      SumOfEqual(ws, vs, t, n - 1);
    }
  }

  lemma {:induction false} SumOfLess(ws: seq<Worker>, vs: seq<Worker>, t: Tally, n: nat)
    requires n <= |ws| && n <= |vs|
    requires forall i :: 0 <= i < n ==> Weight(ws[i], t) <= Weight(vs[i], t)
    ensures Sum(ws, t, n) <= Sum(vs, t, n)
  {
    if n != 0 {
      SumOfLess(ws, vs, t, n - 1);
    }
  }

  lemma {:induction false} SumOfUpdate(ws: seq<Worker>, w: nat, k: Worker, t: Tally, n: nat)
    requires w < |ws| && n <= |ws|
    ensures Sum(ws[w := k], t, n) + (if w < n then Weight(ws[w], t) else 0)
         == Sum(ws, t, n) + (if w < n then Weight(k, t) else 0)
  {
    if n != 0 {
      SumOfUpdate(ws, w, k, t, n - 1);
    }
  }

  lemma {:induction false} SumHasWitness(ws: seq<Worker>, t: Tally, n: nat) returns (w: nat)
    requires n <= |ws| && 0 < Sum(ws, t, n)
    ensures w < n && 0 < Weight(ws[w], t)
  {
    if 0 < Weight(ws[n - 1], t) {
      w := n - 1;
    } else {
      w := SumHasWitness(ws, t, n - 1);
    }
  }

  lemma {:induction false} SumOfOnes(ws: seq<Worker>, t: Tally, n: nat)
    requires n <= |ws| && forall i :: 0 <= i < n ==> Weight(ws[i], t) == 1
    ensures Sum(ws, t, n) == n
  {
    if n != 0 {
      SumOfOnes(ws, t, n - 1);
    }
  }

  /** One worker changes. */
  lemma TotalOfPut(ws: seq<Worker>, w: nat, k: Worker)
    requires w < |ws|
    ensures forall t :: Total(ws[w := k], t) + Weight(ws[w], t) == Total(ws, t) + Weight(k, t)
  {
    forall t: Tally ensures Total(ws[w := k], t) + Weight(ws[w], t) == Total(ws, t) + Weight(k, t) {
      SumOfUpdate(ws, w, k, t, |ws|);
    }
  }

  lemma TotalOfMore(ws: seq<Worker>, k: Worker)
    ensures forall t :: Total(ws + [k], t) == Total(ws, t) + Weight(k, t)
  {
    forall t: Tally ensures Total(ws + [k], t) == Total(ws, t) + Weight(k, t) {
      SumOfEqual(ws + [k], ws, t, |ws|);
    }
  }

  lemma TotalOfWoken(ws: seq<Worker>)
    ensures forall t :: t != Awake ==> Total(WakeAll(ws), t) == Total(ws, t)
    ensures Total(ws, Awake) <= Total(WakeAll(ws), Awake)
  {
    forall t: Tally | t != Awake ensures Total(WakeAll(ws), t) == Total(ws, t) {
      SumOfEqual(WakeAll(ws), ws, t, |ws|);
    }
    SumOfLess(ws, WakeAll(ws), Awake, |ws|);
  }

  // ---- the invariant ----

  predicate Shape(s: State) {
    && s.min <= s.max && |s.threads| == s.max && |s.home| == |s.workers|
    && (s.shutdown <==> s.destroyer != Idle)
    && (s.manager.Growing? ==> s.destroyer.Idle? || s.destroyer.JoiningManager?)
  }

  /** What was accepted is what was dequeued followed by what is queued, in order; a call
      returns 0 exactly when its task was accepted, and each task is accepted once. */
  predicate Conserved(calls: seq<Call>, queue: seq<nat>, accepted: seq<nat>, dequeued: seq<nat>) {
    && accepted == dequeued + queue
    && (forall k :: 0 <= k < |accepted| ==> accepted[k] < |calls| && calls[accepted[k]] == Accepted)
    && (forall c :: 0 <= c < |calls| && calls[c] == Accepted ==> c in accepted)
    && (forall j, k :: 0 <= j < k < |accepted| ==> accepted[j] != accepted[k])
  }

  /** `live_thr_num` and `busy_thr_num` count what they say; the former until shutdown. */
  predicate Counts(s: State) {
    && s.live <= s.max
    && (!s.shutdown ==> s.min <= s.live == Total(s.workers, Alive))
    && s.busy == Total(s.workers, Busy)
  }

  predicate Parks(ws: seq<Worker>) {
    exists w :: 0 <= w < |ws| && ws[w] == Parked
  }

  /** No wakeup is lost: while a worker waits, every queued task has a worker awake for it. */
  predicate WorkersAwake(s: State) {
    Parks(s.workers) ==> !s.shutdown && |s.queue| <= Total(s.workers, Awake)
  }

  /** While an adder waits, the queue is full. */
  predicate AddersAwake(s: State) {
    && |s.queue| <= s.capacity
    && (!s.shutdown ==> forall c :: 0 <= c < |s.calls| && s.calls[c] == Waiting ==> |s.queue| == s.capacity)
  }

  /** A thread that still exists is in its slot. */
  predicate Homed(workers: seq<Worker>, home: seq<nat>, threads: seq<Slot>) {
    && |home| == |workers|
    && (forall i :: 0 <= i < |threads| && threads[i] != Empty ==> threads[i].w < |workers|)
    && (forall w :: 0 <= w < |workers| && workers[w] != Exited ==>
          home[w] < |threads| && threads[home[w]] == Thread(w))
  }

  /** What threadpool_destroy has waited for so far. */
  predicate Joined(d: Destroyer, m: Manager, threads: seq<Slot>, workers: seq<Worker>) {
    match d
    case Joining(i) => m == Gone && forall j :: 0 <= j < i && j < |threads| ==> Vacant(threads[j], workers)
    case Freed => m == Gone && forall j :: 0 <= j < |threads| ==> Vacant(threads[j], workers)
    case _ => true
  }

  predicate Inv(s: State) {
    && Shape(s) && Counts(s) && WorkersAwake(s) && AddersAwake(s)
    && Conserved(s.calls, s.queue, s.accepted, s.dequeued)
    && Homed(s.workers, s.home, s.threads)
    && Joined(s.destroyer, s.manager, s.threads, s.workers)
  }

  // ---- each step keeps the invariant ----

  lemma PutStaysHome(s: State, w: nat, k: Worker)
    requires w < |s.workers| && s.workers[w] != Exited
    requires Homed(s.workers, s.home, s.threads) && Joined(s.destroyer, s.manager, s.threads, s.workers)
    ensures Homed(s.workers[w := k], s.home, s.threads)
    ensures Joined(s.destroyer, s.manager, s.threads, s.workers[w := k])
  {
    forall j | 0 <= j < |s.threads| && Vacant(s.threads[j], s.workers)
      ensures Vacant(s.threads[j], s.workers[w := k])
    {
    }
  }

  lemma PutParks(ws: seq<Worker>, w: nat, k: Worker)
    requires w < |ws|
    ensures k != Parked && Parks(ws[w := k]) ==> Parks(ws)
    ensures k == Parked ==> Parks(ws[w := k])
  {
    if k != Parked && Parks(ws[w := k]) {
      var v :| 0 <= v < |ws| && ws[w := k][v] == Parked;
      assert ws[v] == Parked;
    }
    assert ws[w := k][w] == k;
  }

  lemma WorkerMoveKeepsInv(s: State, a: Action)
    requires Inv(s) && Enabled(s, a)
    requires a.WorkerWakes? || a.TaskStarts? || a.TaskEnds? || a.ThreadEnds?
    ensures Inv(Apply(s, a))
  {
    hide Total;
    hide Parks;
    var k := Apply(s, a).workers[a.w];
    PutStaysHome(s, a.w, k);
    hide Homed;
    hide Joined;
    hide Conserved;
    TotalOfPut(s.workers, a.w, k);
    PutParks(s.workers, a.w, k);
    assert Total(s.workers[a.w := k], Awake) >= Total(s.workers, Awake);
  }

  lemma TakeConserves(s: State)
    requires Conserved(s.calls, s.queue, s.accepted, s.dequeued) && s.queue != []
    ensures Conserved(RouseAll(s.calls), s.queue[1..], s.accepted, s.dequeued + [s.queue[0]])
  {
    assert (s.dequeued + [s.queue[0]]) + s.queue[1..] == s.dequeued + s.queue;
  }

  lemma LookKeepsInv(s: State, w: nat)
    requires Inv(s) && s.Free() && w < |s.workers| && s.workers[w] in {AtLock, Woken}
    ensures Inv(Look(s, w))
  {
    hide Total, Parks, Homed, Joined, Conserved;
    var k := Look(s, w).workers[w];
    PutStaysHome(s, w, k);
    TotalOfPut(s.workers, w, k);
    PutParks(s.workers, w, k);
    if !s.shutdown && s.queue != [] {
      TakeConserves(s);
    }
  }

  lemma ResumeKeepsInv(s: State, w: nat)
    requires Inv(s) && s.Free() && w < |s.workers| && s.workers[w] == Woken
    ensures Inv(Resume(s, w))
  {
    hide Total;
    hide Parks;
    hide Homed;
    hide Joined;
    hide Conserved;
    if s.waitExit > 0 && s.queue == [] {
      var t := s.(waitExit := s.waitExit - 1);
      if s.live > s.min {
        PutStaysHome(s, w, Exiting);
        TotalOfPut(s.workers, w, Exiting);
        PutParks(s.workers, w, Exiting);
      } else {
        LookKeepsInv(t, w);
      }
    } else {
      LookKeepsInv(s, w);
    }
  }

  lemma AddConserves(s: State, c: nat)
    requires Conserved(s.calls, s.queue, s.accepted, s.dequeued) && c < |s.calls| && s.calls[c] != Accepted
    ensures Conserved(s.calls[c := Accepted], s.queue + [c], s.accepted + [c], s.dequeued)
  {
    var calls, accepted := s.calls[c := Accepted], s.accepted + [c];
    assert s.dequeued + (s.queue + [c]) == accepted;
    assert accepted[|s.accepted|] == c && forall k :: 0 <= k < |s.accepted| ==> s.accepted[k] != c;
    forall d | 0 <= d < |calls| && calls[d] == Accepted ensures d in accepted {
      assert d == c || d in s.accepted;
    }
  }

  lemma MoveConserves(s: State, c: nat, k: Call)
    requires Conserved(s.calls, s.queue, s.accepted, s.dequeued) && c < |s.calls|
    requires s.calls[c] != Accepted && k != Accepted
    ensures Conserved(s.calls[c := k], s.queue, s.accepted, s.dequeued)
  {
    assert forall j :: 0 <= j < |s.accepted| ==> s.accepted[j] != c;
  }

  lemma AddKeepsInv(s: State, c: nat, signalled: Slot)
    requires Inv(s) && Enabled(s, CallLocks(c, signalled))
    ensures Inv(Add(s, c, signalled))
  {
    hide Total, Homed, Joined, Conserved;
    AddConserves(s, c);
    MoveConserves(s, c, Waiting);
    MoveConserves(s, c, Refused);
    if !s.shutdown && |s.queue| < s.capacity {
      match signalled
      case Empty =>
        assert !Parks(s.workers);
      case Thread(w) =>
        assert Parks(s.workers);
        hide Parks;
        PutStaysHome(s, w, Woken);
        TotalOfPut(s.workers, w, Woken);
    } else {
      hide Parks;
    }
  }

  lemma CallMoveKeepsInv(s: State, a: Action)
    requires Inv(s) && Enabled(s, a) && (a.NewCall? || a.CallWakes?)
    ensures Inv(Apply(s, a))
  {
    hide Total;
    hide Parks;
    hide Homed;
    hide Joined;
    var t := Apply(s, a);
    if a.CallWakes? {
      assert forall k :: 0 <= k < |s.accepted| ==> s.accepted[k] != a.c;
    }
    assert forall c :: 0 <= c < |t.calls| && t.calls[c] == Accepted ==> s.calls[c] == Accepted;
  }

  lemma CreateStaysHome(s: State, i: nat)
    requires i < |s.threads| && Vacant(s.threads[i], s.workers) && Homed(s.workers, s.home, s.threads)
    ensures Homed(s.workers + [AtLock], s.home + [i], s.threads[i := Thread(|s.workers|)])
    ensures Homed(s.workers, s.home, s.threads[i := Empty])
  {
    forall w | 0 <= w < |s.workers| && s.workers[w] != Exited ensures s.home[w] != i {
      assert s.threads[s.home[w]] == Thread(w);
    }
  }

  lemma GrowKeepsInv(s: State, created: bool)
    requires Inv(s) && s.manager.Growing?
    ensures Inv(Grow(s, created))
  {
    hide Total;
    hide Conserved;
    var m, t := s.manager, Grow(s, created);
    if m.i < s.max && m.add < VARY && s.live < s.max && Vacant(s.threads[m.i], s.workers) {
      CreateStaysHome(s, m.i);
      hide Homed;
      hide Vacant;
      if created {
        TotalOfMore(s.workers, AtLock);
        assert Parks(t.workers) ==> Parks(s.workers) by {
          if Parks(t.workers) {
            var v :| 0 <= v < |t.workers| && t.workers[v] == Parked;
            assert s.workers[v] == Parked;
          }
        }
        hide Parks;
      }
    } else {
      hide Homed;
    }
  }

  lemma WakeStaysHome(s: State)
    requires Homed(s.workers, s.home, s.threads) && Joined(s.destroyer, s.manager, s.threads, s.workers)
    ensures Homed(WakeAll(s.workers), s.home, s.threads)
    ensures Joined(s.destroyer, s.manager, s.threads, WakeAll(s.workers))
    ensures !Parks(WakeAll(s.workers))
  {
    forall j | 0 <= j < |s.threads| && Vacant(s.threads[j], s.workers)
      ensures Vacant(s.threads[j], WakeAll(s.workers))
    {
    }
  }

  lemma ManageKeepsInv(s: State, created: bool)
    requires Inv(s) && s.manager != Gone
    ensures Inv(Manage(s, created))
  {
    hide Total;
    hide Conserved;
    if s.manager.Growing? {
      GrowKeepsInv(s, created);
    } else {
      WakeStaysHome(s);
      TotalOfWoken(s.workers);
      hide Homed;
      hide Parks;
      hide WakeAll;
    }
  }

  lemma DestroyKeepsInv(s: State)
    requires Inv(s) && Enabled(s, DestroyerMoves)
    ensures Inv(Destroy(s))
  {
    hide Total;
    hide Conserved;
    WakeStaysHome(s);
    TotalOfWoken(s.workers);
    hide Homed;
    hide Parks;
    hide WakeAll;
    hide Vacant;
  }

  lemma StepKeepsInv(s: State, a: Action)
    requires Inv(s) && Enabled(s, a)
    ensures Inv(Apply(s, a))
  {
    hide Inv;
    hide Look;
    hide Resume;
    hide Add;
    hide Manage;
    hide Destroy;
    match a
    case WorkerLocks(w) =>
      if s.workers[w] == Woken {
        ResumeKeepsInv(s, w);
      } else {
        LookKeepsInv(s, w);
      }
    case CallLocks(c, signalled) => AddKeepsInv(s, c, signalled);
    case NewCall => CallMoveKeepsInv(s, a);
    case CallWakes(_) => CallMoveKeepsInv(s, a);
    case ManagerMoves(created) => ManageKeepsInv(s, created);
    case DestroyerMoves => DestroyKeepsInv(s);
    case _ => WorkerMoveKeepsInv(s, a);
  }

  lemma InitIsInv(s: State)
    requires Init(s)
    ensures Inv(s)
  {
    SumOfOnes(s.workers, Alive, |s.workers|);
    assert Total(s.workers, Busy) == 0 by {
      if 0 < Total(s.workers, Busy) {
        var w := SumHasWitness(s.workers, Busy, |s.workers|);
      }
    }
  }

  // ---- runs ----

  predicate CanRun(s: State, run: seq<Action>)
    decreases |run|
  {
    run == [] || (Enabled(s, run[0]) && CanRun(Apply(s, run[0]), run[1..]))
  }

  function After(s: State, run: seq<Action>): State
    requires CanRun(s, run)
    decreases |run|
  {
    if run == [] then s else After(Apply(s, run[0]), run[1..])
  }

  lemma StepKeepsSizes(s: State, a: Action)
    requires Enabled(s, a)
    ensures var t := Apply(s, a); t.min == s.min && t.max == s.max && t.capacity == s.capacity
  {
  }

  lemma {:induction false} RunKeepsInv(s: State, run: seq<Action>)
    requires Inv(s) && CanRun(s, run)
    ensures Inv(After(s, run))
    ensures var t := After(s, run); t.min == s.min && t.max == s.max && t.capacity == s.capacity
    decreases |run|
  {
    hide Inv;
    hide Apply;
    hide Enabled;
    if run != [] {
      StepKeepsInv(s, run[0]);
      StepKeepsSizes(s, run[0]);
      RunKeepsInv(Apply(s, run[0]), run[1..]);
    }
  }

  // ---- before shutdown ----

  predicate Active(k: Worker) {
    k in {AtLock, Woken} || k.Taken? || k.Running?
  }

  /** In every reachable state with a task queued, some worker is up and about, and while
      other workers are parked there are enough of those for all queued tasks. */
  lemma NoTaskIsStranded(s: State, run: seq<Action>) returns (w: nat)
    requires Init(s) && 1 <= s.min && CanRun(s, run)
    requires var t := After(s, run); !t.shutdown && t.queue != []
    ensures var t := After(s, run);
            && w < |t.workers| && Active(t.workers[w])
            && (Parks(t.workers) ==> t.workers[w] in {AtLock, Woken} && |t.queue| <= Total(t.workers, Awake))
  {
    InitIsInv(s);
    RunKeepsInv(s, run);
    hide Inv;
    w := ActiveWorker(After(s, run));
  }

  lemma ActiveWorker(t: State) returns (w: nat)
    requires Inv(t) && 1 <= t.min && !t.shutdown && t.queue != []
    ensures w < |t.workers| && Active(t.workers[w])
    ensures Parks(t.workers) ==> t.workers[w] in {AtLock, Woken} && |t.queue| <= Total(t.workers, Awake)
  {
    hide Conserved, Homed, Joined;
    if Parks(t.workers) {
      w := SumHasWitness(t.workers, Awake, |t.workers|);
    } else {
      w := SumHasWitness(t.workers, Alive, |t.workers|);
    }
  }

  /** Work stops only for want of work: when no worker can make a move, and the manager is
      not holding the lock, the queue is empty and every accepted task has been run, once. */
  lemma IdleMeansEmpty(s: State, run: seq<Action>)
    requires Init(s) && 1 <= s.min && CanRun(s, run)
    requires var t := After(s, run);
             !t.shutdown && !t.manager.Growing? &&
             forall w :: !Enabled(t, WorkerLocks(w)) && !Enabled(t, TaskStarts(w)) && !Enabled(t, TaskEnds(w))
    ensures After(s, run).queue == []
    ensures multiset(After(s, run).finished) == multiset(After(s, run).accepted)
  {
    var t := After(s, run);
    InitIsInv(s);
    RunKeepsInv(s, run);
    InitIsExecuted(s);
    RunExecutes(s, run);
    TasksAreConserved(s, run);
    hide Inv, Enabled, Executed;
    if t.queue != [] {
      var w := ActiveWorker(t);
      ActiveCanMove(t, w);
    }
    forall w | 0 <= w < |t.workers| ensures !t.workers[w].Taken? && !t.workers[w].Running? {
      if Active(t.workers[w]) {
        ActiveCanMove(t, w);
      }
    }
    AllRun(t);
    assert t.accepted == t.dequeued;
  }

  lemma ActiveCanMove(t: State, w: nat)
    requires Inv(t) && !t.shutdown && !t.manager.Growing? && w < |t.workers| && Active(t.workers[w])
    ensures Enabled(t, WorkerLocks(w)) || Enabled(t, TaskStarts(w)) || Enabled(t, TaskEnds(w))
  {
    hide Conserved, Homed, Total;
    TotalOfPut(t.workers, w, AtLock);
  }

  /** Before shutdown, queued tasks have an active worker. */
  predicate Attended(s: State) {
    !s.shutdown && s.queue != [] ==> exists w :: 0 <= w < |s.workers| && Active(s.workers[w])
  }

  /** `threadpool_create` does not check its arguments.  For every pool with room for a task,
      tasks are always attended to if and only if at least one thread must be kept. */
  lemma AttendedIffMinimum(s: State)
    requires Init(s) && 1 <= s.capacity
    ensures 1 <= s.min <==> forall run :: CanRun(s, run) ==> Attended(After(s, run))
  {
    if 1 <= s.min {
      forall run | CanRun(s, run) ensures Attended(After(s, run)) {
        var t := After(s, run);
        if !t.shutdown && t.queue != [] {
          var w := NoTaskIsStranded(s, run);
        }
      }
    } else {
      var run := Extend(s, [], NewCall);
      run := Extend(s, run, CallLocks(0, Empty));
      assert !Attended(After(s, run));
    }
  }

  /** A caller waits in threadpool_add only while the queue is full. */
  lemma NoAdderIsStranded(s: State, run: seq<Action>, c: nat)
    requires Init(s) && CanRun(s, run) && c < |After(s, run).calls|
    requires !After(s, run).shutdown && After(s, run).calls[c] == Waiting
    ensures |After(s, run).queue| == After(s, run).capacity
  {
    InitIsInv(s);
    RunKeepsInv(s, run);
  }

  /** Every dequeued task has been run, or is held by exactly one worker that is to run it or
      is running it. */
  ghost predicate Executed(s: State) {
    forall c :: multiset(s.dequeued)[c] == multiset(s.finished)[c] + Total(s.workers, Holding(c))
  }

  lemma CountOfMore(s: seq<nat>, x: nat, c: nat)
    ensures multiset(s + [x])[c] == multiset(s)[c] + if x == c then 1 else 0
  {
  }

  predicate OfWorker(a: Action) {
    a.WorkerLocks? || a.WorkerWakes? || a.TaskStarts? || a.TaskEnds? || a.ThreadEnds?
  }

  /** A worker's move changes no other worker.  The task that leaves the queue is the one it
      takes; it runs the task it took, and finishes the task it ran. */
  lemma WorkerKeepsItsTask(s: State, a: Action)
    requires Enabled(s, a) && OfWorker(a)
    ensures var t := Apply(s, a); var before, now := s.workers[a.w], t.workers[a.w];
            && t.workers == s.workers[a.w := now]
            && (now.Taken? ==> a.WorkerLocks? && t.dequeued == s.dequeued + [now.task])
            && (!now.Taken? ==> t.dequeued == s.dequeued)
            && (now.Running? <==> a.TaskStarts?) && (now.Running? ==> now.task == before.task)
            && t.finished == if a.TaskEnds? then s.finished + [before.task] else s.finished
  {
  }

  lemma WorkerExecutes(s: State, a: Action, c: nat)
    requires Executed(s) && Enabled(s, a) && OfWorker(a)
    ensures var t := Apply(s, a); multiset(t.dequeued)[c] == multiset(t.finished)[c] + Total(t.workers, Holding(c))
  {
    hide Total, Apply, Look, Resume;
    WorkerKeepsItsTask(s, a);
    var k := Apply(s, a).workers[a.w];
    TotalOfPut(s.workers, a.w, k);
    if k.Taken? {
      CountOfMore(s.dequeued, k.task, c);
    }
    if a.TaskEnds? {
      CountOfMore(s.finished, s.workers[a.w].task, c);
    }
  }

  lemma ManagerRunsNothing(s: State, created: bool, c: nat)
    requires s.manager != Gone
    ensures var t := Manage(s, created);
            && t.dequeued == s.dequeued && t.finished == s.finished
            && Total(t.workers, Holding(c)) == Total(s.workers, Holding(c))
  {
    hide Total, WakeAll;
    if s.manager.Growing? {
      TotalOfMore(s.workers, AtLock);
    } else {
      TotalOfWoken(s.workers);
    }
  }

  lemma OthersRunNothing(s: State, a: Action, c: nat)
    requires Enabled(s, a) && !OfWorker(a)
    ensures var t := Apply(s, a);
            && t.dequeued == s.dequeued && t.finished == s.finished
            && Total(t.workers, Holding(c)) == Total(s.workers, Holding(c))
  {
    hide Total, WakeAll, Manage;
    if a.CallLocks? {
      if a.signalled != Empty {
        TotalOfPut(s.workers, a.signalled.w, Woken);
      }
    } else if a.ManagerMoves? {
      ManagerRunsNothing(s, a.created, c);
    } else {
      TotalOfWoken(s.workers);
    }
  }

  lemma StepExecutes(s: State, a: Action)
    requires Executed(s) && Enabled(s, a)
    ensures Executed(Apply(s, a))
  {
    hide Total, Apply, Enabled;
    var t := Apply(s, a);
    forall c ensures multiset(t.dequeued)[c] == multiset(t.finished)[c] + Total(t.workers, Holding(c)) {
      if OfWorker(a) {
        WorkerExecutes(s, a, c);
      } else {
        OthersRunNothing(s, a, c);
      }
    }
  }

  lemma {:induction false} RunExecutes(s: State, run: seq<Action>)
    requires Executed(s) && CanRun(s, run)
    ensures Executed(After(s, run))
    decreases |run|
  {
    hide Executed, Apply, Enabled;
    if run != [] {
      StepExecutes(s, run[0]);
      RunExecutes(Apply(s, run[0]), run[1..]);
    }
  }

  lemma NobodyHolds(ws: seq<Worker>, c: nat)
    requires forall w :: 0 <= w < |ws| ==> !ws[w].Taken? && !ws[w].Running?
    ensures Total(ws, Holding(c)) == 0
  {
    if 0 < Total(ws, Holding(c)) {
      var w := SumHasWitness(ws, Holding(c), |ws|);
    }
  }

  lemma InitIsExecuted(s: State)
    requires Init(s)
    ensures Executed(s)
  {
    forall c ensures Total(s.workers, Holding(c)) == 0 {
      NobodyHolds(s.workers, c);
    }
  }

  /** Tasks are dequeued in the order in which they were accepted, each once, and accepted
      exactly if the call returned 0; a dequeued task has been run to its end, or exactly one
      worker has it; the pool's counters are exact. */
  lemma TasksAreConserved(s: State, run: seq<Action>)
    requires Init(s) && CanRun(s, run)
    ensures var t := After(s, run);
            && t.accepted == t.dequeued + t.queue
            && (forall c :: 0 <= c < |t.calls| ==> (t.calls[c] == Accepted <==> c in t.accepted))
            && (forall j, k :: 0 <= j < k < |t.accepted| ==> t.accepted[j] != t.accepted[k])
            && (forall c :: multiset(t.dequeued)[c] == multiset(t.finished)[c] + Total(t.workers, Holding(c)))
            && t.busy == Total(t.workers, Busy)
            && (!t.shutdown ==> t.min <= t.live == Total(t.workers, Alive) <= t.max)
  {
    InitIsInv(s);
    RunKeepsInv(s, run);
    InitIsExecuted(s);
    RunExecutes(s, run);
    hide Total;
  }

  lemma AllRun(t: State)
    requires Executed(t)
    requires forall w :: 0 <= w < |t.workers| ==> !t.workers[w].Taken? && !t.workers[w].Running?
    ensures multiset(t.finished) == multiset(t.dequeued)
  {
    forall c ensures multiset(t.finished)[c] == multiset(t.dequeued)[c] {
      NobodyHolds(t.workers, c);
    }
  }

  // ---- from shutdown to free ----

  /** Once the pool shuts down no worker waits for work any more, and none ever will. */
  lemma NobodyParksAfterShutdown(s: State, run: seq<Action>)
    requires Init(s) && CanRun(s, run) && After(s, run).shutdown
    ensures forall w :: 0 <= w < |After(s, run).workers| ==> After(s, run).workers[w] != Parked
  {
    InitIsInv(s);
    RunKeepsInv(s, run);
    hide Total;
    assert !Parks(After(s, run).workers);
  }

  /** When the pool is freed, the manager and every worker ever started have exited, and
      every task taken from the queue has been run, once. */
  lemma FreedAfterEveryThread(s: State, run: seq<Action>)
    requires Init(s) && CanRun(s, run) && After(s, run).destroyer == Freed
    ensures After(s, run).manager == Gone
    ensures forall w :: 0 <= w < |After(s, run).workers| ==> After(s, run).workers[w] == Exited
    ensures multiset(After(s, run).finished) == multiset(After(s, run).dequeued)
  {
    InitIsInv(s);
    RunKeepsInv(s, run);
    var t := After(s, run);
    InitIsExecuted(s);
    RunExecutes(s, run);
    hide Inv, Executed;
    AllExited(t);
    AllRun(t);
  }

  lemma AllExited(t: State)
    requires Inv(t) && t.destroyer == Freed
    ensures t.manager == Gone && forall w :: 0 <= w < |t.workers| ==> t.workers[w] == Exited
  {
    hide Conserved, Counts, WorkersAwake, AddersAwake, Total;
    assert forall i :: 0 <= i < |t.threads| ==> Vacant(t.threads[i], t.workers);
  }

  /** The steps of the pool's own threads and of threadpool_destroy. */
  predicate OfPool(a: Action) {
    !a.NewCall? && !a.CallLocks? && !a.CallWakes?
  }

  function Moves(run: seq<Action>): nat {
    if run == [] then 0 else (if OfPool(run[0]) then 1 else 0) + Moves(run[1..])
  }

  function ManagerRank(m: Manager, max: nat): nat {
    match m
    case Gone => 0
    case Top => 1
    case Asleep => 1
    case Shrinking(_, _) => 2
    case Growing(i, _, _, _) => if i <= max then 3 + max - i else 3
    case Deciding(_, _, _) => 4 + max
    case Counted(_, _) => 5 + max
    case Reading => 6 + max
  }

  function DestroyerRank(d: Destroyer, slots: nat): nat {
    match d
    case Joining(i) => if i <= slots then 1 + slots - i else 1
    case Freed => 0
    case _ => slots + 2
  }

  /** How many moves the pool has left once it shuts down. */
  function Remaining(s: State): nat {
    Total(s.workers, Rank) + 3 * ManagerRank(s.manager, s.max) + DestroyerRank(s.destroyer, |s.threads|)
  }

  lemma WorkerIsProgress(s: State, a: Action)
    requires s.shutdown && Enabled(s, a) && OfPool(a) && !a.ManagerMoves? && !a.DestroyerMoves? && !a.WorkerWakes?
    ensures var t := Apply(s, a);
            && Total(t.workers, Rank) < Total(s.workers, Rank)
            && t.manager == s.manager && t.destroyer == s.destroyer && |t.threads| == |s.threads| && t.max == s.max
            && t.shutdown && t.queue == s.queue && t.dequeued == s.dequeued
  {
    hide Total;
    TotalOfPut(s.workers, a.w, Apply(s, a).workers[a.w]);
  }

  lemma ManagerIsProgress(s: State, created: bool)
    requires Shape(s) && s.shutdown && s.manager != Gone
    ensures var t := Manage(s, created);
            && Total(t.workers, Rank) + 3 * ManagerRank(t.manager, s.max)
               < Total(s.workers, Rank) + 3 * ManagerRank(s.manager, s.max)
            && t.destroyer == s.destroyer && |t.threads| == |s.threads| && t.max == s.max
            && t.shutdown && t.queue == s.queue && t.dequeued == s.dequeued
  {
    hide Total;
    if s.manager.Growing? {
      TotalOfMore(s.workers, AtLock);
    } else {
      TotalOfWoken(s.workers);
    }
  }

  lemma MoveIsProgress(s: State, a: Action)
    requires Inv(s) && s.shutdown && Enabled(s, a)
    ensures Apply(s, a).shutdown && Apply(s, a).queue == s.queue && Apply(s, a).dequeued == s.dequeued
    ensures Remaining(Apply(s, a)) + (if OfPool(a) then 1 else 0) <= Remaining(s)
  {
    hide Total, Conserved, Homed, Joined, Counts, Manage, ManagerRank;
    if a.ManagerMoves? {
      ManagerIsProgress(s, a.created);
    } else if OfPool(a) && !a.DestroyerMoves? {
      WorkerIsProgress(s, a);
    }
  }

  /** Once shut down, the pool makes at most so many moves more, whatever callers do ... */
  lemma {:induction false} TeardownIsBounded(s: State, run: seq<Action>)
    requires Inv(s) && s.shutdown && CanRun(s, run)
    ensures Moves(run) <= Remaining(s)
    decreases |run|
  {
    hide Inv;
    hide Apply;
    hide Remaining;
    if run != [] {
      StepKeepsInv(s, run[0]);
      MoveIsProgress(s, run[0]);
      TeardownIsBounded(Apply(s, run[0]), run[1..]);
    }
  }

  /** Whom threadpool_destroy waits for, or its own next move. */
  function NextMove(s: State): Action {
    if s.manager != Gone then ManagerMoves(false)
    else if s.destroyer.Joining? && s.destroyer.i < |s.threads| && !Vacant(s.threads[s.destroyer.i], s.workers) then
      var w := s.threads[s.destroyer.i].w;
      if w < |s.workers| then
        match s.workers[w]
        case Taken(_) => TaskStarts(w)
        case Running(_) => TaskEnds(w)
        case Exiting => ThreadEnds(w)
        case _ => WorkerLocks(w)
      else DestroyerMoves
    else DestroyerMoves
  }

  /** ... and always has one until it is freed, so threadpool_destroy returns. */
  lemma TeardownIsNeverStuck(s: State)
    requires Inv(s) && s.shutdown && s.destroyer != Freed
    ensures Enabled(s, NextMove(s)) && OfPool(NextMove(s))
  {
    hide Conserved;
    if s.destroyer.Joining? && s.destroyer.i < |s.threads| && !Vacant(s.threads[s.destroyer.i], s.workers) {
      var w := s.threads[s.destroyer.i].w;
      assert s.workers[w] != Parked;
      TotalOfPut(s.workers, w, AtLock);
    }
  }

  // ---- what threadpool_destroy does not do ----

  lemma StepReleasesNoAdder(s: State, a: Action, c: nat)
    requires Inv(s) && s.shutdown && Enabled(s, a) && c < |s.calls|
    ensures c < |Apply(s, a).calls|
    ensures Apply(s, a).calls[c] == Waiting <==> s.calls[c] == Waiting && a != CallWakes(c)
  {
    hide Inv;
  }

  /** From shutdown on nobody signals queue_not_full: a caller is left waiting in
      threadpool_add, up to the free and beyond, exactly if it was waiting at shutdown and
      never wakes on its own; and the tasks queued at shutdown, though accepted, are never
      dequeued. */
  lemma {:induction false} ShutdownFreezesTheQueue(s: State, run: seq<Action>, c: nat)
    requires Inv(s) && s.shutdown && CanRun(s, run) && c < |s.calls|
    ensures var t := After(s, run);
            && c < |t.calls| && (t.calls[c] == Waiting <==> s.calls[c] == Waiting && CallWakes(c) !in run)
            && t.queue == s.queue && t.dequeued == s.dequeued
    decreases |run|
  {
    hide Inv;
    hide Apply;
    if run != [] {
      var t := Apply(s, run[0]);
      StepKeepsInv(s, run[0]);
      MoveIsProgress(s, run[0]);
      StepReleasesNoAdder(s, run[0], c);
      assert run == [run[0]] + run[1..];
      ShutdownFreezesTheQueue(t, run[1..], c);
    }
  }

  /** Both happen: a pool of one thread with room for one task is freed while one call's
      task was accepted and never run, and another call still waits on its condition. */
  lemma DestroyStrandsAnAdder() returns (s: State, run: seq<Action>)
    ensures Init(s) && CanRun(s, run)
    ensures var t := After(s, run);
            t.destroyer == Freed && t.calls == [Accepted, Waiting] && t.accepted == [0] && t.dequeued == []
  {
    s, run := TwoCallsThenShutdown();
    run := Extend(s, run, ManagerMoves(false));
    run := Extend(s, run, WorkerLocks(0));
    run := Extend(s, run, ThreadEnds(0));
    run := Extend(s, run, DestroyerMoves);
    run := Extend(s, run, DestroyerMoves);
    run := Extend(s, run, DestroyerMoves);
  }

  lemma TwoCallsThenShutdown() returns (s: State, run: seq<Action>)
    ensures Init(s) && CanRun(s, run)
    ensures After(s, run) == State(1, 1, 1, [AtLock], [0], [Thread(0)], [Accepted, Waiting], [0], [0], [], [],
                                   1, 0, 0, true, Top, JoiningManager)
  {
    s, run := TwoCalls();
    run := Extend(s, run, DestroyerMoves);
    assert WakeAll([AtLock]) == [AtLock];
  }

  lemma TwoCalls() returns (s: State, run: seq<Action>)
    ensures Init(s) && CanRun(s, run)
    ensures After(s, run) == State(1, 1, 1, [AtLock], [0], [Thread(0)], [Accepted, Waiting], [0], [0], [], [],
                                   1, 0, 0, false, Top, Idle)
  {
    s := State(1, 1, 1, [AtLock], [0], [Thread(0)], [], [], [], [], [], 1, 0, 0, false, Top, Idle);
    run := Extend(s, [], NewCall);
    run := Extend(s, run, CallLocks(0, Empty));
    assert After(s, run).calls == [Accepted];
    run := Extend(s, run, NewCall);
    run := Extend(s, run, CallLocks(1, Empty));
    assert After(s, run).calls == [Accepted, Waiting];
  }

  lemma Extend(s: State, run: seq<Action>, a: Action) returns (longer: seq<Action>)
    requires CanRun(s, run) && Enabled(After(s, run), a)
    ensures CanRun(s, longer) && After(s, longer) == Apply(After(s, run), a)
  {
    longer := run + [a];
    ExtendFrom(s, run, a);
  }

  lemma {:induction false} ExtendFrom(s: State, run: seq<Action>, a: Action)
    requires CanRun(s, run) && Enabled(After(s, run), a)
    ensures CanRun(s, run + [a]) && After(s, run + [a]) == Apply(After(s, run), a)
    decreases |run|
  {
    if run == [] {
      assert ([] + [a])[1..] == [];
    } else {
      assert (run + [a])[1..] == run[1..] + [a];
      ExtendFrom(Apply(s, run[0]), run[1..], a);
    }
  }
}
