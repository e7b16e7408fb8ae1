/** The idle timers of the single-threaded reactor (`src/epoll_reactor`): a binary
    min-heap of connection slots kept in place, where every slot knows its position,
    so that a connection can be dropped or its deadline moved in O(log n). */
module TimerHeap {
  import opened NetBuffer

  // ---- heap order on the sequence of deadlines ----

  function Parent(k: int): (p: int)
    requires 0 < k
    ensures 0 <= p < k && (k == 2 * p + 1 || k == 2 * p + 2)
  {
    (k - 1) / 2
  }

  ghost predicate Edge(s: seq<int>, k: int) {
    0 < k < |s| ==> s[Parent(k)] <= s[k]
  }

  ghost predicate Ordered(s: seq<int>) {
    forall k :: Edge(s, k)
  }

  /** The parent of `i` is not above the children of `i`, whatever stands at `i`. */
  ghost predicate Bridged(s: seq<int>, i: int) {
    forall k :: 0 < i < k < |s| && Parent(k) == i ==> s[Parent(i)] <= s[k]
  }

  /** Heap order, except that the element at `i` is arbitrary. */
  ghost predicate HoleAt(s: seq<int>, i: int) {
    Bridged(s, i) && forall k :: 0 < k < |s| && k != i && Parent(k) != i ==> Edge(s, k)
  }

  /** Heap order, except that the element at `i` may exceed its children. */
  ghost predicate HeavyAt(s: seq<int>, i: int) {
    Bridged(s, i) && forall k :: 0 < k < |s| && Parent(k) != i ==> Edge(s, k)
  }

  /** Heap order, except that the element at `i` may be less than its parent. */
  ghost predicate LightAt(s: seq<int>, i: int) {
    Bridged(s, i) && forall k :: 0 < k < |s| && k != i ==> Edge(s, k)
  }

  function Swapped(s: seq<int>, i: nat, j: nat): seq<int>
    requires i < |s| && j < |s|
  {
    s[i := s[j]][j := s[i]]
  }

  /** One step up moves the defect to the parent, and leaves no other. */
  lemma RiseStep(s: seq<int>, j: nat)
    requires 0 < j < |s| && s[j] < s[Parent(j)] && (HoleAt(s, j) || LightAt(s, j))
    ensures LightAt(Swapped(s, Parent(j), j), Parent(j))
  {
    hide Parent;
    var p := Parent(j);
    var t := Swapped(s, p, j);
    assert 0 < p ==> Edge(s, p);
    forall k | 0 < k < |s| && k != p
      ensures Edge(t, k)
    {
      assert k != j && Parent(k) != j ==> Edge(s, k);
    }
    forall k | 0 < p < k < |t| && Parent(k) == p
      ensures t[Parent(p)] <= t[k]
    {
      assert k != j ==> Edge(s, k);
    }
  }

  /** One step down moves the defect to the lesser child, and leaves no other. */
  lemma SinkStep(s: seq<int>, c: nat, j: nat)
    requires c < |s| && 0 < c && Parent(c) == j && HeavyAt(s, j) && s[c] < s[j]
    requires forall k :: 0 < k < |s| && Parent(k) == j ==> s[c] <= s[k]
    ensures HeavyAt(Swapped(s, c, j), c)
  {
    hide Parent;
    var t := Swapped(s, c, j);
    forall k | 0 < k < |s| && Parent(k) != c
      ensures Edge(t, k)
    {
      assert Parent(k) != j ==> Edge(s, k);
    }
    forall k | 0 < c < k < |t| && Parent(k) == c
      ensures t[Parent(c)] <= t[k]
    {
      assert Edge(s, k);
    }
  }

  /** Overwriting one element of a heap leaves a hole there. */
  lemma ReplacedIsHole(s: seq<int>, i: nat, x: int)
    requires Ordered(s) && i < |s|
    ensures HoleAt(s[i := x], i)
  {
    hide Parent;
    var t := s[i := x];
    forall k | 0 < k < |t| && k != i
      ensures Parent(k) != i ==> Edge(t, k)
      ensures 0 < i && Parent(k) == i ==> t[Parent(i)] <= t[k]
    {
      assert Edge(s, k) && Edge(s, i);
    }
  }

  /** A prefix of a heap is a heap, and one more element at its end is a hole. */
  lemma HeapPrefix(s: seq<int>, n: nat, x: int)
    requires Ordered(s) && n <= |s|
    ensures Ordered(s[..n]) && HoleAt(s[..n] + [x], n)
  {
    hide Parent;
    forall k
      ensures Edge(s[..n], k)
      ensures 0 < k < n ==> Edge(s[..n] + [x], k)
    {
      assert Edge(s, k);
    }
  }

  /** The root of a heap is its least element. */
  lemma {:induction false} RootIsLeast(s: seq<int>, k: nat)
    requires Ordered(s) && k < |s|
    ensures s[0] <= s[k]
  {
    if 0 < k {
      RootIsLeast(s, Parent(k));
      assert Edge(s, k);
    }
  }

  // ---- the heap in memory ----

  /** What a slot sends back: `buf[..len]` from `sendpos` on, and the direction it waits for. */
  class Echo {
    var buf: seq<byte>             // its first `len` bytes
    var sendpos: nat
    var writing: bool              // EPOLLOUT with `senddata`; otherwise EPOLLIN with `recvdata`
    ghost var received: seq<byte>  // what the connection has received, and what it has sent
    ghost var sent: seq<byte>

    /** What was received has been sent back, or is in the buffer still to be sent, and then
        the slot waits to write; otherwise it waits to read. */
    ghost predicate Valid()
      reads this
    {
      Loaded() && (writing <==> sendpos < |buf|)
    }

    ghost predicate Loaded()
      reads this`buf, this`sendpos, this`received, this`sent
    {
      sendpos <= |buf| && sent + buf[sendpos..] == received
    }

    constructor ()
      ensures Valid() && received == [] && !writing
    {
      buf, sendpos, writing, received, sent := [], 0, false, [], [];
    }

    /** A connection begins with nothing received and nothing to send. */
    method Begin()
      modifies this`buf, this`sendpos, this`received, this`sent
      ensures Loaded() && received == [] && sendpos == |buf|
    {
      buf, sendpos, received, sent := [], 0, [], [];
    }

    /** Bytes are received; the buffer holds nothing that has not been sent. */
    method Receive(bytes: seq<byte>)
      requires Valid() && !writing && bytes != []
      modifies this`buf, this`sendpos, this`received
      ensures Loaded() && sendpos < |buf| && received == old(received) + bytes && sent == old(received)
    {
      assert buf[sendpos..] == [];
      buf, sendpos, received := bytes, 0, received + bytes;
    }

    /** Bytes are sent, from the front of those left. */
    method Send(bytes: seq<byte>) returns (complete: bool)
      requires Valid() && bytes <= buf[sendpos..]
      modifies this`sendpos, this`sent
      ensures Loaded() && sent == old(sent) + bytes && (complete <==> sendpos == |buf|)
    {
      assert buf[sendpos..] == bytes + buf[sendpos + |bytes|..];
      sendpos, sent := sendpos + |bytes|, sent + bytes;
      complete := sendpos == |buf|;
    }

    /** The client has got back a prefix of what it sent, all of it exactly while its slot
        waits to read. */
    lemma EchoesAPrefix()
      requires Valid()
      ensures sent <= received && (sent == received <==> !writing)
    {
      assert |received| == |sent| + (|buf| - sendpos);
      assert sent == received[..|sent|];
      assert received[..|received|] == received;
    }
  }

  class Event {
    var fd: int
    var registered: bool  // `status`: on the epoll instance
    var expire: int
    var hidx: int         // position in the heap, -1 when not in it
    const echo: Echo

    constructor ()
      ensures fd == -1 && !registered && hidx == -1 && fresh(echo)
    {
      fd, registered, expire, hidx := -1, false, 0, -1;
      echo := new Echo();
    }

    ghost predicate Queued()
      reads this`hidx
    {
      0 <= hidx
    }
  }

  class Heap {
    const events: set<Event>
    const heap: array<Event?>
    var size: nat
    ghost var deadlines: seq<int>  // by heap position

    /** Back-pointers and heap positions are inverse to each other. */
    ghost predicate Indexed()
      reads this, heap, events`hidx, events`expire
    {
      && size <= heap.Length && |deadlines| == size
      && (forall k :: 0 <= k < size ==> heap[k] != null && heap[k] in events && heap[k].hidx == k)
      && (forall k :: 0 <= k < size ==> deadlines[k] == heap[k].expire)
      && (forall e :: e in events ==> -1 <= e.hidx < size && (0 <= e.hidx ==> heap[e.hidx] == e))
    }

    ghost predicate Valid()
      reads this, heap, events`hidx, events`expire
    {
      Indexed() && Ordered(deadlines)
    }

    constructor (events: set<Event>, capacity: nat)
      requires forall e :: e in events ==> e.hidx == -1
      ensures Valid() && size == 0 && this.events == events && heap.Length == capacity && fresh(heap)
    {
      this.events := events;
      heap := new Event?[capacity];
      size, deadlines := 0, [];
    }

    method Swap(i: nat, j: nat)
      requires Indexed() && i < size && j < size
      modifies this`deadlines, heap, events`hidx
      ensures Indexed() && deadlines == Swapped(old(deadlines), i, j)
      ensures heap[i] == old(heap[j]) && heap[j] == old(heap[i])
      ensures forall e :: e in events ==> e.Queued() == old(e.Queued())
    {
      var a, b := heap[i], heap[j];
      heap[i] := b;
      b.hidx := i;
      heap[j] := a;
      a.hidx := j;
      deadlines := Swapped(deadlines, i, j);
    }

    /** Lets the element at `i` rise.  It stays, and can then only be too heavy for its
        place, or it moves and the whole heap is in order. */
    method Up(i: nat)
      requires Indexed() && i < size && HoleAt(deadlines, i)
      modifies this`deadlines, heap, events`hidx
      ensures Indexed() && HeavyAt(deadlines, i)
      ensures heap[i] == old(heap[i]) || Ordered(deadlines)
      ensures forall e :: e in events ==> e.Queued() == old(e.Queued())
    {
      hide Parent;
      var j := i;
      while 0 < j
        invariant 0 <= j <= i && Indexed()
        invariant if j == i then HoleAt(deadlines, i) && heap[i] == old(heap[i]) else LightAt(deadlines, j)
        invariant forall e :: e in events ==> e.Queued() == old(e.Queued())
      {
        var parent := Parent(j);
        if heap[parent].expire <= heap[j].expire {
          break;
        }
        RiseStep(deadlines, j);
        Swap(parent, j);
        j := parent;
      }
      RiseDone(deadlines, i, j);
    }

    /** Lets the element at `i` sink to its place. */
    method Down(i: nat)
      requires Indexed() && i < size && HeavyAt(deadlines, i)
      modifies this`deadlines, heap, events`hidx
      ensures Valid()
      ensures forall e :: e in events ==> e.Queued() == old(e.Queued())
    {
      hide Parent;
      var j := i;
      while true
        invariant 0 <= j < size && Indexed() && HeavyAt(deadlines, j)
        invariant forall e :: e in events ==> e.Queued() == old(e.Queued())
        decreases size - j
      {
        var small := LeastOf(j);
        if small == j {
          break;
        }
        SinkStep(deadlines, small, j);
        Swap(small, j);
        j := small;
      }
    }

    /** The position of the least among `j` and its children. */
    method LeastOf(j: nat) returns (small: nat)
      requires Indexed() && j < size
      ensures small < size
      ensures small == j || (0 < small && Parent(small) == j && heap[small].expire < heap[j].expire)
      ensures forall k :: 0 < k < size && Parent(k) == j ==> heap[small].expire <= heap[k].expire
      ensures small == j ==> HeavyAt(deadlines, j) ==> Ordered(deadlines)
    {
      var l := 2 * j + 1;
      var r := l + 1;
      small := j;
      if l < size && heap[l].expire < heap[small].expire {
        small := l;
      }
      if r < size && heap[r].expire < heap[small].expire {
        small := r;
      }
    }

    method Add(ev: Event, when: int)
      requires Valid() && ev in events && !ev.Queued() && size < heap.Length
      modifies this`size, this`deadlines, heap, events`hidx, ev`expire
      ensures Valid() && ev.Queued() && ev.expire == when && size == old(size) + 1
      ensures forall e :: e in events && e != ev ==> e.Queued() == old(e.Queued())
    {
      hide Parent, HoleAt, HeavyAt, Ordered;
      ev.expire := when;
      ev.hidx := size;
      heap[size] := ev;
      size := size + 1;
      HeapPrefix(deadlines, |deadlines|, when);
      assert deadlines[..|deadlines|] == deadlines;
      deadlines := deadlines + [when];
      Up(size - 1);
      LeafIsNotHeavy(deadlines);
    }

    /** `timer_add` for a timer that is in the heap already, which nothing in it prevents: it
        comes to stand at two places, and one back-pointer cannot name both. */
    method AddAgain(ev: Event, when: int) returns (ghost p: nat, ghost q: nat)
      requires Valid() && ev in events && ev.Queued() && size < heap.Length
      modifies this`size, heap, events`hidx, ev`expire
      ensures size == old(size) + 1 <= heap.Length && Populated() && ev.expire == when
      ensures p < size && q < size && p != q && heap[p] == heap[q] == ev
      ensures exists k :: 0 <= k < size && heap[k].hidx != k
    {
      p, q := ev.hidx, size;
      ev.expire := when;
      ev.hidx := size;
      heap[size] := ev;
      size := size + 1;
      p, q := UpDoubled(size - 1, p, q);
      assert heap[p].hidx != p || heap[q].hidx != q;
    }

    ghost predicate Populated()
      reads this`size, heap
    {
      size <= heap.Length && forall k :: 0 <= k < size ==> heap[k] != null && heap[k] in events
    }

    /** `heap_up` on a heap that holds one event twice, at `p` and `q`: exchanges move the two
        entries, and never make one of them. */
    method UpDoubled(i: nat, ghost p: nat, ghost q: nat) returns (ghost p': nat, ghost q': nat)
      requires Populated() && i < size && p < size && q < size && p != q && heap[p] == heap[q]
      modifies heap, events`hidx
      ensures Populated() && p' < size && q' < size && p' != q' && heap[p'] == heap[q'] == old(heap[p])
    {
      p', q' := p, q;
      var j := i;
      while 0 < j
        invariant Populated() && j <= i
        invariant p' < size && q' < size && p' != q' && heap[p'] == heap[q'] == old(heap[p])
      {
        var parent := Parent(j);
        if heap[parent].expire <= heap[j].expire {
          break;
        }
        var a, b := heap[parent], heap[j];
        heap[parent] := b;
        b.hidx := parent;
        heap[j] := a;
        a.hidx := j;
        p' := if p' == parent then j else if p' == j then parent else p';
        q' := if q' == parent then j else if q' == j then parent else q';
        j := parent;
      }
    }

    method Delete(ev: Event)
      requires Valid() && ev in events
      modifies this`size, this`deadlines, heap, events`hidx
      ensures Valid() && !ev.Queued()
      ensures size == old(size) - if old(ev.Queued()) then 1 else 0
      ensures forall e :: e in events && e != ev ==> e.Queued() == old(e.Queued())
      ensures !old(ev.Queued()) ==> heap[..] == old(heap[..]) && forall e :: e in events ==> e.hidx == old(e.hidx)
    {
      hide Parent, HoleAt, HeavyAt, Ordered;
      var i := ev.hidx;
      if i < 0 {
        return;
      }
      ghost var s := deadlines;
      HeapPrefix(s, size - 1, 0);
      ev.hidx := -1;
      size := size - 1;
      deadlines := s[..size];
      if i == size {
        return;
      }
      heap[i] := heap[size];
      heap[i].hidx := i;
      ReplacedIsHole(deadlines, i, s[size]);
      deadlines := deadlines[i := s[size]];
      Up(i);
      Down(i);
    }

    /** Moves a deadline either way, or starts a timer. */
    method Refresh(ev: Event, when: int)
      requires Valid() && ev in events && (!ev.Queued() ==> size < heap.Length)
      modifies this`size, this`deadlines, heap, events`hidx, ev`expire
      ensures Valid() && ev.Queued() && ev.expire == when
      ensures size == old(size) + if old(ev.Queued()) then 0 else 1
      ensures forall e :: e in events && e != ev ==> e.Queued() == old(e.Queued())
    {
      if ev.hidx < 0 {
        Add(ev, when);
      } else {
        Move(ev, when);
      }
    }

    method Move(ev: Event, when: int)
      requires Valid() && ev in events && ev.Queued()
      modifies this`deadlines, heap, events`hidx, ev`expire
      ensures Valid() && ev.Queued() && ev.expire == when
      ensures forall e :: e in events ==> e.Queued() == old(e.Queued())
    {
      var i := ev.hidx;
      ReplacedIsHole(deadlines, i, when);
      ev.expire := when;
      deadlines := deadlines[i := when];
      Up(i);
      if ev.hidx != i {
        OrderedIsHeavy(deadlines, ev.hidx);
      }
      Down(ev.hidx);
    }

    /** The first `n` heap places hold `n` different events. */
    lemma {:induction false} PlacesAreDistinct(n: nat)
      requires Indexed() && n <= size
      ensures |set e | e in events && 0 <= e.hidx < n| == n
    {
      var s := set e | e in events && 0 <= e.hidx < n;
      if n == 0 {
        assert s == {};
      } else {
        PlacesAreDistinct(n - 1);
        OneMore(s, (set e | e in events && 0 <= e.hidx < n - 1), heap[n - 1]);
      }
    }
  }

  lemma OneMore<T>(s: set<T>, t: set<T>, x: T)
    requires x !in t && forall y :: y in s <==> y in t || y == x
    ensures |s| == |t| + 1
  {
    assert s == t + {x};
  }

  lemma OrderedIsHeavy(s: seq<int>, i: nat)
    requires Ordered(s) && i < |s|
    ensures HeavyAt(s, i)
  {
    hide Parent;
    forall k | 0 < i < k < |s| && Parent(k) == i
      ensures s[Parent(i)] <= s[k]
    {
      assert Edge(s, k) && Edge(s, i);
    }
  }

  lemma RiseDone(s: seq<int>, i: nat, j: nat)
    requires j <= i < |s| && (0 < j ==> Edge(s, j))
    requires if j == i then HoleAt(s, i) else LightAt(s, j)
    ensures HeavyAt(s, i) && (j == i || Ordered(s))
  {
    hide Parent;
    if j != i {
      assert Ordered(s);
      OrderedIsHeavy(s, i);
    }
  }

  lemma LeafIsNotHeavy(s: seq<int>)
    requires s != [] && HeavyAt(s, |s| - 1)
    ensures Ordered(s)
  {
    hide Parent;
  }
}
