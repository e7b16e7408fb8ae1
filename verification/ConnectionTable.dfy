/** The connection slots of the single-threaded reactor (`src/epoll_reactor`): a fixed
    table whose slots are free or registered, together with the heap of their idle
    timers.  `open` says which slot holds each client descriptor not yet closed. */
module ConnectionTable {
  import opened NetBuffer
  import opened TimerHeap

  const MAX_EVENTS: nat := 1024
  const IDLE_TIMEOUT: int := 60000
  const BUFLEN: nat := 4096

  /** How a `recv` or `send` on a ready descriptor ends; `bytes` are those transferred. */
  datatype Transfer = Bytes(bytes: seq<byte>) | EndOfFile | Retry | Failed

  class Table {
    const slots: seq<Event>
    const listener: Event
    const timers: Heap
    ghost var open: map<int, Event>

    ghost predicate Shape() {
      && |slots| == MAX_EVENTS == timers.heap.Length
      && (forall i, j :: 0 <= i < j < |slots| ==> slots[i] != slots[j])
      && timers.events == (set e | e in slots) + {listener}
      && listener !in slots
    }

    /** The slot's three views agree: on epoll, in the timer heap, holding a descriptor. */
    ghost predicate Agrees(c: Event)
      reads this, c
    {
      && (c.registered <==> c.Queued())
      && (c.registered ==> c.fd in open && open[c.fd] == c)
    }

    ghost predicate Valid()
      reads this, timers, timers.heap, timers.events
    {
      Whole({})
    }

    /** Valid, but for some torn slots: these look free, while their timers run and their
        descriptors are open. */
    ghost predicate Whole(torn: set<Event>)
      reads this, timers, timers.heap, timers.events
    {
      && Shape() && timers.Valid() && !listener.Queued()
      && (forall c :: c in torn ==>
            c in slots && !c.registered && c.Queued() && c.fd in open && open[c.fd] == c)
      && (forall c :: c in slots && c !in torn ==> Agrees(c))
      && (forall fd :: fd in open ==>
            open[fd] in slots && open[fd].fd == fd && (open[fd].registered || open[fd] in torn))
    }

    /** Apart from heap positions, nothing about `c` has changed. */
    twostate predicate Kept(c: Event)
      reads c
    {
      c.registered == old(c.registered) && c.fd == old(c.fd) && c.expire == old(c.expire)
    }

    ghost function Buffers(): set<Echo> {
      set c | c in slots :: c.echo
    }

    /** Every slot has a buffer of its own, and each connection is an echo. */
    ghost predicate Echoes()
      reads slots, Buffers()
    {
      && (forall i, j :: 0 <= i < j < |slots| ==> slots[i].echo != slots[j].echo)
      && (forall c :: c in slots && c.registered ==> c.echo.Valid())
    }

    /** A slot in use is an echo still, or again. */
    twostate lemma EchoesRemain(changed: set<Event>)
      requires forall c :: c in changed && c.registered ==> c.echo.Valid()
      requires forall c :: c in slots && c !in changed && c.registered ==> old(c.registered) && unchanged(c.echo)
      ensures old(Echoes()) ==> Echoes()
    {
    }

    ghost function Busy(): set<Event>
      reads slots
    {
      set c | c in slots && c.registered
    }

    constructor ()
      ensures Valid() && Echoes() && open == map[] && timers.size == 0
      ensures forall c :: c in slots ==> !c.registered
    {
      var table: seq<Event> := [];
      while |table| < MAX_EVENTS
        invariant |table| <= MAX_EVENTS
        invariant forall c :: c in table ==> fresh(c) && fresh(c.echo) && !c.registered && c.hidx == -1
        invariant forall i, j :: 0 <= i < j < |table| ==> table[i] != table[j] && table[i].echo != table[j].echo
      {
        var c := new Event();
        table := table + [c];
      }
      var l := new Event();
      var h := new Heap((set e | e in table) + {l}, MAX_EVENTS);
      slots, listener, timers, open := table, l, h, map[];
    }

    /** The heap holds exactly the slots in use and the torn ones, so it never outgrows its
        array; it has room for one more timer if and only if some slot is truly free. */
    lemma HeapFits(torn: set<Event>)
      requires Whole(torn)
      ensures timers.size == |Busy() + torn| <= MAX_EVENTS
      ensures timers.size < MAX_EVENTS <==> exists c :: c in slots && !c.registered && c !in torn
    {
      InHeap(torn);
      Fewer(slots, Busy() + torn);
      if c :| c in slots && c !in Busy() + torn {
        assert !c.registered && c !in torn;
      }
      if c :| c in slots && !c.registered && c !in torn {
        assert c !in Busy() + torn;
      }
    }

    lemma InHeap(torn: set<Event>)
      requires Whole(torn)
      ensures timers.size == |Busy() + torn|
    {
      timers.PlacesAreDistinct(timers.size);
      assert Busy() + torn == set e | e in timers.events && 0 <= e.hidx < timers.size;
    }

    method EventDel(ev: Event)
      modifies ev`registered
      ensures !ev.registered
    {
      ev.registered := false;
    }

    /** `eventset` and `eventadd`: direction and callback go together. */
    method EventAdd(ev: Event, writing: bool)
      modifies ev`registered, ev.echo`writing
      ensures ev.registered && ev.echo.writing == writing
    {
      ev.registered, ev.echo.writing := true, writing;
    }

    /** The one way out: timer, epoll and descriptor go together.  It repairs a torn slot. */
    method ConnClose(ev: Event, ghost torn: set<Event> := {})
      requires Whole(torn) && ev in slots && ev.Queued()
      modifies this, timers, timers.heap, timers.events
      ensures Whole(torn - {ev}) && !ev.registered && !ev.Queued()
      ensures ev.fd == -1 && open == old(open) - {old(ev.fd)}
      ensures ev.expire == old(ev.expire) && forall c :: c in slots && c != ev ==> Kept(c)
      ensures timers.size == old(timers.size) - 1
    {
      hide Heap.Valid, Heap.Indexed;
      timers.Delete(ev);
      EventDel(ev);
      open := open - {ev.fd};
      ev.fd := -1;
    }

    /** One accepted connection takes the first slot that looks free.  Without one, or when
        the descriptor cannot be made non-blocking, it is closed again.  The table stays as
        whole as it was if and only if that slot is not torn; see `Reuse`. */
    method AcceptOne(fd: int, nonblocking: bool, now: int, ghost torn: set<Event> := {}) returns (slot: nat)
      requires Whole(torn) && fd !in open
      modifies this, timers, timers.heap, timers.events, Buffers()
      ensures old(Echoes()) ==> Echoes()
      ensures slot <= |slots| && forall i :: 0 <= i < slot ==> old(slots[i].registered)
      ensures slot < |slots| ==> !old(slots[slot].registered)
      ensures Whole(torn) <==> !(slot < |slots| && nonblocking && slots[slot] in torn)
      ensures slot < |slots| && nonblocking ==>
                && slots[slot].registered && slots[slot].fd == fd && slots[slot].expire == now + IDLE_TIMEOUT
                && slots[slot].echo.received == [] && !slots[slot].echo.writing
                && open == old(open)[fd := slots[slot]] && forall c :: c in slots && c != slots[slot] ==> Kept(c)
      ensures slot == |slots| || !nonblocking ==> open == old(open) && forall c :: c in slots ==> Kept(c)
    {
      slot := 0;
      while slot < |slots| && slots[slot].registered
        invariant slot <= |slots|
        invariant forall i :: 0 <= i < slot ==> slots[i].registered
      {
        slot := slot + 1;
      }
      if slot == |slots| || !nonblocking {
        return;
      }
      Assign(slots[slot], fd, now, torn);
    }

    /** A slot that looks free is given to a new connection.  The source does not look whether
        it is: these are the same statements on either kind of slot. */
    method Assign(ev: Event, fd: int, now: int, ghost torn: set<Event>)
      requires Whole(torn) && fd !in open && ev in slots && !ev.registered
      modifies this, timers, timers.heap, timers.events, ev.echo
      ensures Whole(torn) <==> ev !in torn
      ensures ev.registered && ev.fd == fd && ev.expire == now + IDLE_TIMEOUT
      ensures open == old(open)[fd := ev] && forall c :: c in slots && c != ev ==> Kept(c)
      ensures ev.echo.Valid() && ev.echo.received == [] && !ev.echo.writing
    {
      hide Whole, Heap.Valid, Heap.Indexed;
      HeapFits(torn);
      TornIsQueued(ev, torn);
      ev.echo.Begin();
      if ev.hidx < 0 {
        Occupy(ev, fd, now, torn);
      } else {
        var _ := Reuse(ev, fd, now, torn);
      }
    }

    lemma TornIsQueued(ev: Event, torn: set<Event>)
      requires Whole(torn) && ev in slots && !ev.registered
      ensures ev in torn <==> ev.Queued()
    {
    }

    method Occupy(ev: Event, fd: int, now: int, ghost torn: set<Event> := {})
      requires Whole(torn) && fd !in open && ev in slots && !ev.registered && ev !in torn
      requires timers.size < MAX_EVENTS
      modifies this, timers, timers.heap, timers.events, ev.echo`writing
      ensures !ev.echo.writing
      ensures Whole(torn) && ev.registered && ev.fd == fd && ev.expire == now + IDLE_TIMEOUT
      ensures open == old(open)[fd := ev] && forall c :: c in slots && c != ev ==> Kept(c)
    {
      hide Heap.Valid, Heap.Indexed;
      ev.fd := fd;
      open := open[fd := ev];
      EventAdd(ev, false);
      timers.Add(ev, now + IDLE_TIMEOUT);
    }

    /** The same, when the slot is torn: its old descriptor stays open though no slot in use
        knows it any more, and its timer stands in the heap twice.  If every slot was in use
        or torn the heap is full, and the source writes past its array; here is where the
        model stops. */
    method Reuse(ev: Event, fd: int, now: int, ghost torn: set<Event>) returns (overrun: bool)
      requires Whole(torn) && fd !in open && ev in torn
      modifies this, timers, timers.heap, timers.events, ev.echo`writing
      ensures !ev.echo.writing
      ensures ev.registered && ev.fd == fd && ev.expire == now + IDLE_TIMEOUT && open == old(open)[fd := ev]
      ensures old(ev.fd) in open && forall c :: c in slots && c.registered ==> c.fd != old(ev.fd)
      ensures forall c :: c in slots && c != ev ==> Kept(c)
      ensures overrun <==> forall c :: c in slots ==> old(c.registered) || c in torn
      ensures !overrun ==>
                && timers.size == old(timers.size) + 1 && timers.Populated()
                && exists k :: 0 <= k < timers.size && timers.heap[k].hidx != k
      ensures !Whole(torn)
    {
      hide Whole, Heap.Valid, Heap.Indexed, Heap.Populated;
      HeapFits(torn);
      OneSlotEach(ev, torn);
      overrun := timers.size == MAX_EVENTS;
      ghost var full := forall c :: c in slots ==> c.registered || c in torn;
      assert overrun <==> full;
      ev.fd := fd;
      open := open[fd := ev];
      EventAdd(ev, false);
      if overrun {
        ev.expire := now + IDLE_TIMEOUT;
      } else {
        ghost var p, q := timers.AddAgain(ev, now + IDLE_TIMEOUT);
      }
      InUseIsNotTorn(ev, torn);
    }

    lemma InUseIsNotTorn(ev: Event, torn: set<Event>)
      requires ev in torn && ev.registered
      ensures !Whole(torn)
    {
    }

    lemma OneSlotEach(ev: Event, torn: set<Event>)
      requires Whole(torn) && ev in torn
      ensures forall c :: c in slots && c.registered ==> c != ev && c.fd != ev.fd
      ensures ev in slots && ev in timers.events && ev.Queued() && ev.fd in open
      ensures timers.Valid() && timers.heap.Length == MAX_EVENTS && timers.size <= MAX_EVENTS
    {
      forall c | c in slots && c.registered ensures c != ev && c.fd != ev.fd {
        assert c !in torn && Agrees(c);
      }
    }

    /** Readable.  The slot leaves epoll before the outcome is looked at, and a retry does
        not put it back: the table stays as whole as it was exactly when `recv` gave bytes,
        end of file or a real error; a retry tears this slot, and no other.  Bytes are kept to
        be sent back, and the slot waits to write them. */
    method RecvData(ev: Event, r: Transfer, now: int, ghost torn: set<Event> := {})
      requires Whole(torn) && ev in slots && ev.registered && ev.echo.Valid() && !ev.echo.writing
      requires r.Bytes? ==> 0 < |r.bytes| < BUFLEN
      modifies this, timers, timers.heap, timers.events, ev.echo
      ensures Whole(torn) <==> r != Retry
      ensures r == Retry ==> Whole(torn + {ev}) && open == old(open) && ev.fd == old(ev.fd)
      ensures r.Bytes? ==> ev.registered && ev.expire == now + IDLE_TIMEOUT && open == old(open)
      ensures r.Bytes? ==> ev.echo.received == old(ev.echo.received) + r.bytes && ev.echo.writing
      ensures r in {EndOfFile, Failed} ==> !ev.registered && open == old(open) - {old(ev.fd)}
      ensures ev.echo.Valid() && ev.echo.sent == old(ev.echo.sent)
      ensures old(Echoes()) ==> Echoes()
      ensures forall c :: c in slots && c != ev ==> Kept(c)
    {
      // the source begins with eventdel in every case
      hide Heap.Valid, Heap.Indexed;
      match r {
        case Bytes(bytes) =>
          ev.echo.Receive(bytes);
          Touch(ev, now, torn);
          EventDel(ev);
          EventAdd(ev, true);
        case Retry => EventDel(ev); assert !Agrees(ev);
        case _ => ConnClose(ev, torn); assert torn - {ev} == torn;
      }
    }

    /** Data went through: the deadline moves. */
    method Touch(ev: Event, now: int, ghost torn: set<Event> := {})
      requires Whole(torn) && ev in slots && ev.registered
      modifies timers, timers.heap, timers.events
      ensures Whole(torn) && ev.registered && ev.expire == now + IDLE_TIMEOUT
      ensures ev.fd == old(ev.fd) && forall c :: c in slots && c != ev ==> Kept(c)
    {
      hide Heap.Valid, Heap.Indexed;
      timers.Refresh(ev, now + IDLE_TIMEOUT);
    }

    /** Writable.  Here a retry is harmless: the slot stays as it was.  What `send` took leaves
        the front of what is to be sent. */
    method SendData(ev: Event, r: Transfer, now: int, ghost torn: set<Event> := {})
      requires Whole(torn) && ev in slots && ev.registered && ev.echo.Valid() && ev.echo.writing
      requires r.Bytes? ==> r.bytes != [] && r.bytes <= ev.echo.buf[ev.echo.sendpos..]
      modifies this, timers, timers.heap, timers.events, ev.echo
      ensures Whole(torn)
      ensures r.Bytes? ==> ev.registered && ev.expire == now + IDLE_TIMEOUT && open == old(open)
      ensures ev.echo.Valid() && ev.echo.received == old(ev.echo.received)
      ensures old(Echoes()) ==> Echoes()
      ensures ev.echo.sent == old(ev.echo.sent) + if r.Bytes? then r.bytes else []
      ensures r == Retry ==> open == old(open) && Kept(ev) && ev.echo.writing
      ensures r in {EndOfFile, Failed} ==> !ev.registered && open == old(open) - {old(ev.fd)}
      ensures forall c :: c in slots && c != ev ==> Kept(c)
    {
      hide Heap.Valid, Heap.Indexed;
      match r {
        case Bytes(bytes) =>
          var complete := ev.echo.Send(bytes);
          Touch(ev, now, torn);
          if complete {
            EventDel(ev);
            EventAdd(ev, false);
          }
        case Retry =>
          assert ev.echo.sent + [] == ev.echo.sent;
        case _ =>
          ConnClose(ev, torn);
          assert torn - {ev} == torn;
      }
    }

    lemma NobodyIsDue(now: int, torn: set<Event>)
      requires Whole(torn) && (timers.size == 0 || now < timers.deadlines[0])
      ensures forall c :: c in slots && c.Queued() ==> now < c.expire
    {
      forall c | c in slots && c.Queued()
        ensures now < c.expire
      {
        RootIsLeast(timers.deadlines, c.hidx);
      }
    }

    /** Closes the connections whose deadline has come, those and no others, torn slots
        among them: a torn slot is repaired when its own timer expires. */
    method ExpireProcess(now: int, ghost torn: set<Event> := {})
      requires Whole(torn)
      modifies this, timers, timers.heap, timers.events
      ensures old(Echoes()) ==> Echoes()
      ensures Whole(set c | c in torn && now < old(c.expire))
      ensures forall c :: c in slots ==>
                && (c.registered <==> old(c.registered) && now < old(c.expire))
                && (c.Queued() <==> old(c.Queued()) && now < old(c.expire))
                && c.expire == old(c.expire)
      ensures forall c :: c in slots && c.Queued() ==> c.fd == old(c.fd)
    {
      hide Table.Echoes;
      ghost var left := torn;
      while 0 < timers.size && timers.heap[0].expire <= now
        invariant Whole(left) && left <= torn
        invariant forall c :: c in slots ==> c.expire == old(c.expire)
        invariant forall c :: c in slots && c.Queued() ==>
                    old(c.Queued()) && c.registered == old(c.registered) && c.fd == old(c.fd)
        invariant forall c :: c in slots && old(c.Queued()) && !c.Queued() ==> c.expire <= now && !c.registered
        invariant forall c :: c in torn && c !in left ==> !c.Queued()
        decreases timers.size
      {
        var ev := timers.heap[0];
        ConnClose(ev, left);
        left := left - {ev};
      }
      NobodyIsDue(now, left);
      assert left == set c | c in torn && now < old(c.expire);
      EchoesRemain({});
    }
  }

  lemma {:induction false} DistinctCount<T>(s: seq<T>)
    requires forall i, j :: 0 <= i < j < |s| ==> s[i] != s[j]
    ensures |set x | x in s| == |s|
  {
    if s == [] {
      assert (set x | x in s) == {};
    } else {
      DistinctCount(s[1..]);
      assert (set x | x in s) == {s[0]} + set x | x in s[1..];
    }
  }

  lemma Fewer<T>(s: seq<T>, some: set<T>)
    requires forall i, j :: 0 <= i < j < |s| ==> s[i] != s[j]
    requires forall y :: y in some ==> y in s
    ensures |some| <= |s|
    ensures |some| < |s| <==> exists y :: y in s && y !in some
  {
    var all := set y | y in s;
    DistinctCount(s);
    Subset(some, all);
    if y :| y in s && y !in some {
      Subset(some, all - {y});
    } else {
      assert some == all;
    }
  }

  lemma Subset<T>(a: set<T>, b: set<T>)
    requires a <= b
    ensures |a| <= |b|
  {
    assert b == a + (b - a);
  }
}
