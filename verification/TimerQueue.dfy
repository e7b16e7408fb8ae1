/** The timer queue of an event loop (`net/TimerQueue`, `net/Timer`): timers ordered by
    deadline and then by sequence number, driven by one one-shot timerfd. */
module TimerQueue {
  const MICROS_PER_SECOND: int := 1_000_000
  const NANOS_PER_SECOND: int := 1_000_000_000

  /** Times are in microseconds; `sequence` is the number a timer got when it was made. */
  datatype Timer = Timer(when: int, sequence: nat, interval: nat, repeat: bool) {
    predicate Before(other: Timer) {
      when < other.when || (when == other.when && sequence < other.sequence)
    }

    function Restarted(now: int): Timer {
      this.(when := now + interval)
    }
  }

  datatype Firing = Firing(timer: Timer, at: int)

  /** The one-shot timerfd: off, or set at some time to go off so many seconds and
      nanoseconds later. */
  datatype Alarm = Off | On(setAt: int, seconds: int, nanos: int) {
    /** It goes off at that time, or a nanosecond after it was set if that was too late. */
    predicate RingsAt(when: int) {
      && On? && 0 <= seconds && 0 <= nanos < NANOS_PER_SECOND
      && 1000 * setAt + NANOS_PER_SECOND * seconds + nanos ==
         if setAt < when then 1000 * when else 1000 * setAt + 1
    }
  }

  // ---- the ordered set ----

  ghost predicate Sorted(s: seq<Timer>) {
    forall i, j :: 0 <= i < j < |s| ==> s[i].Before(s[j])
  }

  ghost predicate Apart(s: seq<Timer>, ts: seq<Timer>) {
    forall x, y :: x in s && y in ts ==> x.sequence != y.sequence
  }

  /** No sequence number occurs twice in the list. */
  ghost predicate Distinct(s: seq<Timer>) {
    forall i, j :: 0 <= i < j < |s| ==> s[i].sequence != s[j].sequence
  }

  /** Insertion into the ordered set, which ignores an entry it already has. */
  function Inserted(s: seq<Timer>, t: Timer): seq<Timer> {
    if s == [] || t.Before(s[0]) then [t] + s
    else if s[0].Before(t) then [s[0]] + Inserted(s[1..], t)
    else s
  }

  function InsertedAll(s: seq<Timer>, ts: seq<Timer>): seq<Timer>
    decreases |ts|
  {
    if ts == [] then s else Inserted(InsertedAll(s, ts[..|ts| - 1]), ts[|ts| - 1])
  }

  lemma {:induction false} InsertedIsSorted(s: seq<Timer>, t: Timer)
    requires Sorted(s) && Apart(s, [t])
    ensures Sorted(Inserted(s, t))
    ensures forall x :: x in Inserted(s, t) <==> x in s || x == t
    ensures Inserted(s, t)[0] == if s == [] || t.Before(s[0]) then t else s[0]
  {
    if s != [] && !t.Before(s[0]) {
      assert s[0].sequence != t.sequence && s[0].Before(t);
      InsertedIsSorted(s[1..], t);
      var rest := Inserted(s[1..], t);
      assert forall x :: x in s <==> x == s[0] || x in s[1..];
      forall i | 0 <= i < |rest|
        ensures s[0].Before(rest[i])
      {
        assert rest[i] in s[1..] || rest[i] == t;
      }
      hide Inserted;
      assert Sorted([s[0]] + rest);
    }
  }

  /** Inserting a list of new timers adds exactly them, wherever they belong. */
  lemma {:induction false} InsertedAllIsSorted(s: seq<Timer>, ts: seq<Timer>)
    requires Sorted(s) && Apart(s, ts) && Distinct(ts)
    ensures Sorted(InsertedAll(s, ts))
    ensures forall x :: x in InsertedAll(s, ts) <==> x in s || x in ts
    decreases |ts|
  {
    if ts != [] {
      var (init, last) := (ts[..|ts| - 1], ts[|ts| - 1]);
      assert ts == init + [last];
      InsertedAllIsSorted(s, init);
      InsertedIsSorted(InsertedAll(s, init), last);
    }
  }

  lemma NothingInserted(s: seq<Timer>)
    ensures InsertedAll(s, []) == s
  {
  }

  lemma InsertedLast(s: seq<Timer>, ts: seq<Timer>, t: Timer)
    ensures InsertedAll(s, ts + [t]) == Inserted(InsertedAll(s, ts), t)
  {
    assert (ts + [t])[..|ts|] == ts;
  }

  lemma {:induction false} InsertedAllConcat(s: seq<Timer>, a: seq<Timer>, b: seq<Timer>)
    ensures InsertedAll(s, a + b) == InsertedAll(InsertedAll(s, a), b)
    decreases |b|
  {
    if b == [] {
      assert a + b == a;
    } else {
      assert (a + b)[..|a + b| - 1] == a + b[..|b| - 1];
      InsertedAllConcat(s, a, b[..|b| - 1]);
    }
  }

  /** An ordered set is determined by its members. */
  lemma {:induction false} SortedIsUnique(s: seq<Timer>, t: seq<Timer>)
    requires Sorted(s) && Sorted(t) && forall x :: x in s <==> x in t
    ensures s == t
  {
    assert s != [] ==> s[0] in t;
    assert t != [] ==> t[0] in s;
    if s != [] {
      assert s[0] == t[0];
      forall x
        ensures x in s[1..] <==> x in t[1..]
      {
        assert x in s[1..] ==> s[0].Before(x) && x in s && x in t;
        assert x in t[1..] ==> t[0].Before(x) && x in t && x in s;
      }
      SortedIsUnique(s[1..], t[1..]);
    }
  }

  // ---- one round of expiry ----

  /** The repeating ones among the first `n` of a batch, each an interval after `now`. */
  function Restarts(batch: seq<Timer>, n: nat, now: int): seq<Timer>
    requires n <= |batch|
  {
    if n == 0 then []
    else if batch[n - 1].repeat then Restarts(batch, n - 1, now) + [batch[n - 1].Restarted(now)]
    else Restarts(batch, n - 1, now)
  }

  /** It is a repeating timer of the batch, due an interval after `now`. */
  ghost predicate ComesBack(x: Timer, batch: seq<Timer>, now: int) {
    exists i :: 0 <= i < |batch| && batch[i].repeat &&
      x == Timer(now + batch[i].interval, batch[i].sequence, batch[i].interval, true)
  }

  lemma OneMoreBack(batch: seq<Timer>, t: Timer, now: int)
    ensures forall x :: ComesBack(x, batch + [t], now) <==>
                        ComesBack(x, batch, now) || (t.repeat && x == t.Restarted(now))
  {
    forall x
      ensures ComesBack(x, batch + [t], now) <==> ComesBack(x, batch, now) || (t.repeat && x == t.Restarted(now))
    {
      assert (batch + [t])[|batch|] == t;
      assert forall i :: 0 <= i < |batch| ==> (batch + [t])[i] == batch[i];
    }
  }

  lemma {:induction false} RestartsMembers(batch: seq<Timer>, n: nat, now: int)
    requires n <= |batch|
    ensures forall x :: x in Restarts(batch, n, now) <==> ComesBack(x, batch[..n], now)
    ensures Distinct(batch) ==> Distinct(Restarts(batch, n, now))
  {
    if n != 0 {
      RestartsMembers(batch, n - 1, now);
      assert batch[..n] == batch[..n - 1] + [batch[n - 1]];
      OneMoreBack(batch[..n - 1], batch[n - 1], now);
      assert Distinct(batch) ==> forall x :: x in Restarts(batch, n - 1, now) ==> x.sequence != batch[n - 1].sequence;
    }
  }

  function Firings(batch: seq<Timer>, now: int): (r: seq<Firing>)
    ensures |r| == |batch| && forall i :: 0 <= i < |r| ==> r[i] == Firing(batch[i], now)
  {
    seq(|batch|, i requires 0 <= i < |batch| => Firing(batch[i], now))
  }

  /** The relative expiry handed to the timerfd: seconds and nanoseconds.  It is never
      zero, which would disarm the timer instead. */
  function Timespec(diff: int): (ts: (int, int))
    ensures 0 <= ts.0 && 0 <= ts.1 < NANOS_PER_SECOND && ts != (0, 0)
    ensures NANOS_PER_SECOND * ts.0 + ts.1 == if 0 < diff then 1000 * diff else 1
  {
    if diff <= 0 then (0, 1) else (diff / MICROS_PER_SECOND, diff % MICROS_PER_SECOND * 1000)
  }

  /** Earlier deadlines come first, and of equal ones the timer that was made first. */
  lemma InOrder(s: seq<Timer>, batch: seq<Timer>)
    requires Sorted(s) && batch <= s
    ensures forall i, j :: 0 <= i < j < |batch| ==>
              batch[i].when < batch[j].when || (batch[i].when == batch[j].when && batch[i].sequence < batch[j].sequence)
  {
    assert forall i, j :: 0 <= i < j < |batch| ==> s[i].Before(s[j]);
  }

  /** How a queue and the numbers in use change when `more` new timers come in. */
  ghost predicate Grown(s: seq<Timer>, m: map<nat, bool>, more: seq<Timer>, s': seq<Timer>, m': map<nat, bool>) {
    && s' == InsertedAll(s, more) && Distinct(more)
    && (forall t :: t in more ==> t.sequence !in m && t.sequence in m')
    && (forall n :: n in m ==> n in m' && m'[n] == m[n])
  }

  lemma GrownNot(s: seq<Timer>, m: map<nat, bool>)
    ensures Grown(s, m, [], s, m)
  {
  }

  lemma GrownOnce(s: seq<Timer>, m: map<nat, bool>, t: Timer)
    requires t.sequence !in m
    ensures Grown(s, m, [t], Inserted(s, t), m[t.sequence := t.repeat])
  {
    NothingInserted(s);
    InsertedLast(s, [], t);
  }

  lemma GrownTwice(s: seq<Timer>, m: map<nat, bool>, a: seq<Timer>,
                                      s': seq<Timer>, m': map<nat, bool>, b: seq<Timer>,
                                      s'': seq<Timer>, m'': map<nat, bool>)
    requires Grown(s, m, a, s', m') && Grown(s', m', b, s'', m'')
    ensures Grown(s, m, a + b, s'', m'')
  {
    InsertedAllConcat(s, a, b);
  }

  class TimerQueue {
    var timers: seq<Timer>
    var alarm: Alarm                  // the timerfd
    ghost var fired: seq<Firing>      // every callback run, in order
    var issued: map<nat, bool>        // sequence numbers used so far; does the timer repeat
    ghost var added: seq<Timer>       // every timer that has entered by addTimer, in order
    ghost var spent: set<nat>         // those of one-shot timers that have fired
    ghost var out: set<nat>           // those of the batch that is being run

    ghost predicate Waiting(t: Timer)
      reads this`issued, this`spent
    {
      t.sequence in issued && issued[t.sequence] == t.repeat && t.sequence !in spent
    }

    /** The queue is an ordered set of timers that may still fire. */
    ghost predicate Consistent()
      reads this`timers, this`issued, this`spent, this`out
    {
      && Sorted(timers)
      && (forall t :: t in timers ==> Waiting(t))
      && (forall t :: t in timers ==> t.sequence !in out)
      && (forall n :: n in spent || n in out ==> n in issued)
      && (forall x, y :: x in timers && y in timers && x.sequence == y.sequence ==> x == y)
    }

    /** Nothing fired early, and a one-shot timer fired at most once. */
    ghost predicate History()
      reads this`fired, this`issued, this`spent
    {
      && (forall f :: f in fired ==>
            && f.timer.when <= f.at
            && f.timer.sequence in issued && issued[f.timer.sequence] == f.timer.repeat
            && (f.timer.repeat || f.timer.sequence in spent))
      && (forall i, j :: 0 <= i < j < |fired| && fired[i].timer.sequence == fired[j].timer.sequence ==>
            fired[i].timer.repeat)
    }

    ghost predicate Armed()
      reads this`timers, this`alarm
    {
      timers != [] ==> alarm.RingsAt(timers[0].when)
    }

    ghost predicate Valid()
      reads this
    {
      Consistent() && History() && Armed() && out == {}
    }

    constructor ()
      ensures Valid() && timers == [] && fired == [] && issued == map[]
    {
      timers, alarm, fired, issued, added, spent, out := [], Off, [], map[], [], {}, {};
    }

    method ResetTimerfd(expiration: int)
      modifies this`alarm
      ensures alarm.RingsAt(expiration)
    {
      var now: int := *;
      var value := Timespec(expiration - now);
      alarm := if value == (0, 0) then Off else On(now, value.0, value.1);
    }

    method Insert(t: Timer) returns (earliestChanged: bool)
      requires Sorted(timers) && Apart(timers, [t])
      modifies this`timers
      ensures timers == Inserted(old(timers), t)
      ensures earliestChanged <==> timers[0] == t
    {
      InsertedIsSorted(timers, t);
      if timers == [] {
        timers := Inserted(timers, t);
        return true;
      }
      var earliest := timers[0];
      earliestChanged := t.when < earliest.when || (t.when == earliest.when && t.sequence < earliest.sequence);
      timers := Inserted(timers, t);
    }

    /** A new timer, with a number never used before, enters the queue. */
    method AddTimerInLoop(t: Timer)
      requires Consistent() && t.sequence !in issued
      modifies this`timers, this`alarm, this`issued, this`added
      ensures Consistent() && timers == Inserted(old(timers), t)
      ensures issued == old(issued)[t.sequence := t.repeat] && added == old(added) + [t]
      ensures old(Armed()) ==> Armed()
      ensures old(History()) ==> History()
    {
      hide Inserted, Timespec;
      InsertedIsSorted(timers, t);
      var earliestChanged := Insert(t);
      issued := issued[t.sequence := t.repeat];
      added := added + [t];
      if earliestChanged {
        ResetTimerfd(t.when);
      }
    }

    /** The queue has taken in the timers added since, and nothing else has happened. */
    twostate predicate Received()
      reads this
    {
      && old(added) <= added
      && Grown(old(timers), old(issued), added[|old(added)|..], timers, issued)
    }

    /** A timer whose time has come, and a one-shot timer only the first time. */
    ghost predicate MayFire(t: Timer, now: int)
      reads this`fired, this`issued, this`spent
    {
      && t.when <= now && t.sequence in issued && issued[t.sequence] == t.repeat
      && (t.repeat || t.sequence in spent)
      && forall f :: f in fired && f.timer.sequence == t.sequence ==> t.repeat
    }

    /** The callback of a timer is run: it may add any number of new timers. */
    method Callback(t: Timer, now: int)
      requires Consistent() && History() && MayFire(t, now)
      modifies this`timers, this`alarm, this`issued, this`added, this`fired
      ensures Consistent() && History() && Received()
      ensures fired == old(fired) + [Firing(t, now)]
    {
      hide Consistent, Grown, Inserted, InsertedAll;
      fired := fired + [Firing(t, now)];
      assert History();
      hide History;
      GrownNot(timers, issued);
      assert added[|added|..] == [];
      var count: nat := *;
      while 0 < count
        invariant Consistent() && History() && Received() && fired == old(fired) + [Firing(t, now)]
      {
        var another: Timer := *;
        if another.sequence !in issued {
          ghost var (more, s, m) := (added[|old(added)|..], timers, issued);
          AddTimerInLoop(another);
          assert added[|old(added)|..] == more + [another];
          GrownOnce(s, m, another);
          GrownTwice(old(timers), old(issued), more, s, m, [another], timers, issued);
        }
        count := count - 1;
      }
    }

    /** One timer fires, while the batch it belongs to is out of the queue. */
    method Run(t: Timer, now: int)
      requires Consistent() && History()
      requires Waiting(t) && t.sequence in out && t.when <= now
      modifies this`timers, this`alarm, this`issued, this`added, this`fired, this`spent
      ensures Consistent() && History() && Received()
      ensures fired == old(fired) + [Firing(t, now)]
      ensures forall x: Timer :: old(Waiting(x)) && (t.repeat || x.sequence != t.sequence) ==> Waiting(x)
    {
      spent := spent + if t.repeat then {} else {t.sequence};
      Callback(t, now);
    }

    /** Takes out the timers whose time has come: exactly those, in order. */
    method GetExpired(now: int) returns (expired: seq<Timer>)
      requires Consistent() && out == {}
      modifies this`timers, this`out
      ensures old(timers) == expired + timers
      ensures Consistent() && Pending(expired)
      ensures forall t :: t in expired ==> t.when <= now
      ensures forall t :: t in timers ==> now < t.when
    {
      hide Consistent, Waiting, Sorted;
      StartsSorted();
      expired := [];
      while timers != [] && timers[0].when <= now
        invariant Consistent() && Pending(expired)
        invariant old(timers) == expired + timers
        invariant forall t :: t in expired ==> t.when <= now
        decreases |timers|
      {
        expired := expired + [timers[0]];
        TakeFirst();
      }
      if timers != [] {
        FirstIsLeast();
      }
    }

    lemma StartsSorted()
      requires Consistent() && out == {}
      ensures Pending([])
    {
    }

    lemma FirstIsLeast()
      requires Consistent() && timers != []
      ensures forall t :: t in timers ==> timers[0].when <= t.when
    {
      forall t | t in timers ensures timers[0].when <= t.when {
        var i :| 0 <= i < |timers| && timers[i] == t;
        assert 0 < i ==> timers[0].Before(timers[i]);
      }
    }

    method TakeFirst()
      requires Consistent() && timers != []
      modifies this`timers, this`out
      ensures Consistent() && timers == old(timers)[1..] && Waiting(old(timers)[0])
      ensures out == old(out) + {old(timers)[0].sequence} && old(timers)[0].sequence !in old(out)
    {
      assert Waiting(timers[0]) && forall i :: 0 < i < |timers| ==> timers[0].Before(timers[i]);
      out := out + {timers[0].sequence};
      timers := timers[1..];
    }

    /** These timers are out of the queue and may still fire. */
    ghost predicate Pending(batch: seq<Timer>)
      reads this
    {
      Distinct(batch) && forall t :: t in batch ==> Waiting(t) && t.sequence in out
    }

    /** Runs the callbacks of a batch in order, none of them twice. */
    method RunBatch(batch: seq<Timer>, now: int)
      requires Consistent() && History() && Pending(batch)
      requires forall t :: t in batch ==> t.when <= now
      modifies this`timers, this`alarm, this`issued, this`added, this`fired, this`spent
      ensures Consistent() && History() && Received()
      ensures forall t :: t in batch && t.repeat ==> Waiting(t)
      ensures fired == old(fired) + Firings(batch, now)
    {
      hide History, Consistent, Grown, Waiting, InsertedAll;
      GrownNot(timers, issued);
      assert added[|added|..] == [];
      for i := 0 to |batch|
        invariant Consistent() && History() && Received()
        invariant fired == old(fired) + Firings(batch, now)[..i]
        invariant forall j :: 0 <= j < |batch| && (i <= j || batch[j].repeat) ==> Waiting(batch[j])
      {
        assert Firings(batch, now)[..i + 1] == Firings(batch, now)[..i] + [Firing(batch[i], now)];
        ghost var (before, s, m) := (added, timers, issued);
        Run(batch[i], now);
        assert added[|old(added)|..] == before[|old(added)|..] + added[|before|..];
        GrownTwice(old(timers), old(issued), before[|old(added)|..], s, m, added[|before|..], timers, issued);
      }
    }

    /** The timers that come back are none of those in the queue. */
    lemma ComingBack(batch: seq<Timer>, now: int)
      requires Consistent() && Distinct(batch) && forall t :: t in batch && t.repeat ==> t.sequence in out
      ensures Apart(timers, Restarts(batch, |batch|, now)) && Distinct(Restarts(batch, |batch|, now))
      ensures forall x :: x in Restarts(batch, |batch|, now) <==> ComesBack(x, batch, now)
    {
      RestartsMembers(batch, |batch|, now);
      assert batch[..|batch|] == batch;
    }

    /** Puts the repeating timers of a batch back and sets the timerfd to the earliest. */
    method Reset(batch: seq<Timer>, now: int)
      requires Consistent() && History() && Distinct(batch)
      requires forall t :: t in batch && t.repeat ==> Waiting(t) && t.sequence in out
      modifies this`timers, this`alarm, this`out
      ensures Valid()
      ensures timers == InsertedAll(old(timers), Restarts(batch, |batch|, now))
      ensures forall x :: x in timers <==>
                || x in old(timers)
                || ComesBack(x, batch, now)
    {
      hide Restarts, ComesBack, InsertedAll, Inserted;
      ComingBack(batch, now);
      InsertedAllIsSorted(timers, Restarts(batch, |batch|, now));
      InsertRepeating(batch, now);
      out := {};
      if timers != [] {
        ResetTimerfd(timers[0].when);
      }
    }

    method InsertRepeating(batch: seq<Timer>, now: int)
      requires Consistent() && Distinct(batch)
      requires forall t :: t in batch && t.repeat ==> Waiting(t) && t.sequence in out
      modifies this`timers, this`out
      ensures Consistent()
      ensures timers == InsertedAll(old(timers), Restarts(batch, |batch|, now))
    {
      NothingInserted(timers);
      hide Consistent, InsertedAll, Inserted;
      for i := 0 to |batch|
        invariant Consistent()
        invariant timers == InsertedAll(old(timers), Restarts(batch, i, now))
        invariant forall j :: i <= j < |batch| && batch[j].repeat ==> batch[j].sequence in out
      {
        if batch[i].repeat {
          InsertedLast(old(timers), Restarts(batch, i, now), batch[i].Restarted(now));
          InsertAgain(batch[i].Restarted(now));
        }
      }
    }

    method InsertAgain(t: Timer)
      requires Consistent() && Waiting(t) && t.sequence in out
      modifies this`timers, this`out
      ensures Consistent() && timers == Inserted(old(timers), t) && out == old(out) - {t.sequence}
    {
      InsertedIsSorted(timers, t);
      var _ := Insert(t);
      out := out - {t.sequence};
    }

    /** The timerfd is readable.  Fired are exactly the timers whose time has come, in
        order; afterwards the queue holds the others, the timers that callbacks added,
        and every repeating timer of the batch once more. */
    method HandleRead(readOk: bool, now: int) returns (batch: seq<Timer>)
      requires Valid()
      modifies this
      ensures Valid()
      ensures !readOk ==> batch == [] && timers == old(timers) && fired == old(fired) && added == old(added)
      ensures batch <= old(timers) && old(added) <= added
      ensures fired == old(fired) + Firings(batch, now)
      ensures readOk ==> forall t :: t in old(timers) ==> (t in batch <==> t.when <= now)
      ensures forall i, j :: 0 <= i < j < |batch| ==>
                || batch[i].when < batch[j].when
                || (batch[i].when == batch[j].when && batch[i].sequence < batch[j].sequence)
      ensures readOk ==> forall x :: x in timers <==>
                || (x in old(timers) && now < x.when)
                || x in added[|old(added)|..]
                || ComesBack(x, batch, now)
    {
      hide History, Inserted, InsertedAll, Restarts, ComesBack, Armed, Sorted;
      if !readOk {
        return [];
      }
      alarm := Off;  // it went off
      batch := GetExpired(now);
      InOrder(old(timers), batch);
      ghost var rest := timers;
      RunBatch(batch, now);
      InsertedAllIsSorted(rest, added[|old(added)|..]);
      Reset(batch, now);
    }
  }
}
