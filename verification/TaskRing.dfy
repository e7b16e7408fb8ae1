/** The ring of tasks in the thread pool (`threadpool.cpp`): `task_queue` with
    `queue_front`, `queue_rear` and `queue_size`.  Whatever wraps around in the array, the
    ring is a plain first-in first-out queue. */
module TaskRing {

  class Ring<T(0)> {
    const tasks: array<T>
    var front: nat
    var rear: nat
    var size: nat

    predicate Valid()
      reads this
    {
      && size <= tasks.Length
      && if tasks.Length == 0 then front == 0 && rear == 0
         else front < tasks.Length && rear == (front + size) % tasks.Length
    }

    function Contents(): (c: seq<T>)
      requires Valid()
      reads this, tasks
      ensures |c| == size
    {
      seq(size, i requires 0 <= i < size reads this, tasks requires Valid() => tasks[(front + i) % tasks.Length])
    }

    constructor (capacity: nat)
      ensures Valid() && fresh(tasks) && tasks.Length == capacity && Contents() == []
    {
      tasks := new T[capacity];
      front, rear, size := 0, 0, 0;
    }

    /** The tail of `threadpool_add`, reached only with room in the ring. */
    method Put(task: T)
      requires Valid() && size < tasks.Length
      modifies this, tasks
      ensures Valid()
      ensures Contents() == old(Contents()) + [task]
    {
      ghost var before := Contents();
      tasks[rear] := task;
      rear := (rear + 1) % tasks.Length;
      size := size + 1;
      NextRear(front, size - 1, tasks.Length);
      forall i | 0 <= i < size - 1 ensures Contents()[i] == before[i] {
        PlacesDiffer(front, i, size - 1, tasks.Length);
      }
    }

    /** The dequeue in `threadpool_thread`, reached only with a task in the ring. */
    method Take() returns (task: T)
      requires Valid() && 0 < size
      modifies this
      ensures Valid()
      ensures old(Contents()) == [task] + Contents()
    {
      ghost var before := Contents();
      Wrap(front, tasks.Length);
      assert before[0] == tasks[front];
      task := tasks[front];
      front := (front + 1) % tasks.Length;
      size := size - 1;
      NextFront(old(front), size, tasks.Length);
      ghost var after := Contents();
      forall i | 0 <= i < size ensures after[i] == before[i + 1] {
        NextFront(old(front), i, tasks.Length);
        assert after[i] == tasks[(front + i) % tasks.Length];
      }
      assert before == [task] + after;
    }
  }

  lemma NextRear(front: nat, size: nat, n: nat)
    requires front < n && size < n
    ensures ((front + size) % n + 1) % n == (front + size + 1) % n
  {
    Wrap(front + size, n);
    Wrap(front + size + 1, n);
    Wrap((front + size) % n + 1, n);
  }

  lemma NextFront(front: nat, size: nat, n: nat)
    requires front < n && size < n
    ensures ((front + 1) % n + size) % n == (front + 1 + size) % n
  {
    Wrap(front + 1, n);
    Wrap(front + 1 + size, n);
    Wrap((front + 1) % n + size, n);
  }

  /** Two offsets into the ring never share a slot. */
  lemma PlacesDiffer(front: nat, i: nat, j: nat, n: nat)
    requires front < n && i < j < n
    ensures (front + i) % n != (front + j) % n
  {
    Wrap(front + i, n);
    Wrap(front + j, n);
  }

  lemma Wrap(x: nat, n: nat)
    requires x < 2 * n
    ensures x % n == if x < n then x else x - n
  {
    var q := x / n;
    assert x == q * n + x % n;
    assert q == 0 || q == 1 by {
      if q != 0 && q != 1 {
        Multiple(q, n);
      }
    }
  }

  lemma Multiple(q: nat, n: nat)
    requires 1 < q
    ensures 2 * n <= q * n
  {
    assert q * n == 2 * n + (q - 2) * n;
  }
}
