/** The life of connections across loops (`net/TcpServer`, `net/TcpConnection`,
    `net/EventLoop`): accepted on the base loop, established and closed on an IO loop,
    taken out of the table on the base loop, destroyed on the IO loop.  The hops are
    functors that hold a shared pointer; so do the table, the guard taken while an event
    is handled, a batch of functors until it is done, and user code.

    Steps of different loops interleave freely.  Every loop may be the connection's. */
module Lifecycle {
  import opened Options

  newtype LoopId = x: int | 0 <= x
  newtype ConnId = x: int | 0 <= x

  const BASE: LoopId := 0

  datatype Functor = Establish(c: ConnId) | Remove(c: ConnId) | Destroy(c: ConnId)

  predicate Mentions(q: seq<Functor>, c: ConnId) {
    Establish(c) in q || Remove(c) in q || Destroy(c) in q
  }

  /** While dispatching: the channels reported and not yet handled, and the connection
      whose event is being handled. */
  datatype Phase = Polling | Dispatching(active: set<ConnId>, current: Option<ConnId>) | Running

  datatype Loop = Loop(queue: seq<Functor>, batch: seq<Functor>, next: nat, phase: Phase) {
    predicate Sane() {
      next <= |batch| && (phase != Running ==> batch == [] && next == 0)
    }

    /** The functors that have not been run yet. */
    function Unrun(): seq<Functor> {
      (if next <= |batch| then batch[next..] else []) + queue
    }

    predicate Holds(c: ConnId) {
      Mentions(queue, c) || Mentions(batch, c) || (phase.Dispatching? && phase.current == Some(c))
    }

    /** User code or an event handler may be executing on this loop. */
    predicate Busy() {
      !phase.Polling?
    }
  }

  datatype ConnState = Connecting | Connected | Disconnected
  datatype Status = New | Added | Deleted  // of the channel, as the poller sees it

  datatype Conn = Conn(loop: LoopId, state: ConnState, status: Status, established: nat, destroyed: nat) {
    /** `disableAll`: it unregisters a registered channel, and registers any other. */
    function DisableAll(): Conn {
      this.(status := if status == Added then Deleted else Added)
    }
  }

  datatype State = State(loops: map<LoopId, Loop>, conns: map<ConnId, Conn>, table: set<ConnId>, held: set<ConnId>) {
    predicate HasRef(c: ConnId) {
      c in table || c in held || exists l :: l in loops && loops[l].Holds(c)
    }

    /** How often a functor waits on a loop. */
    function Pend(l: LoopId, f: Functor): nat {
      if l in loops then multiset(loops[l].Unrun())[f] else 0
    }

    function Push(l: LoopId, f: Functor): State
      requires l in loops
    {
      this.(loops := loops[l := loops[l].(queue := loops[l].queue + [f])])
    }

    function With(c: ConnId, k: Conn): State {
      this.(conns := conns[c := k])
    }

    function Enter(l: LoopId, p: Phase): State
      requires l in loops
    {
      this.(loops := loops[l := loops[l].(phase := p)])
    }
  }

  datatype Action =
    | Accept(c: ConnId, io: LoopId)            // newConnection, on the base loop
    | PollReturns(l: LoopId, ready: set<ConnId>)
    | BeginHandle(l: LoopId, c: ConnId)        // handleEvent, with the tie promoted
    | EndHandle(l: LoopId)
    | Close(l: LoopId, c: ConnId)              // handleClose or forceCloseInLoop
    | Take(l: LoopId)                          // doPendingFunctors swaps the queue out
    | RunNext(l: LoopId)
    | EndBatch(l: LoopId)                      // the batch and its references go
    | Hold(c: ConnId) | Release(c: ConnId)     // user code copies or drops a pointer

  predicate Enabled(s: State, a: Action) {
    match a
    case Accept(c, io) =>
      && BASE in s.loops && io in s.loops && c !in s.conns
      && s.loops[BASE].phase.Dispatching? && s.loops[BASE].phase.current == None
    case PollReturns(l, ready) =>
      && l in s.loops && s.loops[l].phase.Polling?
      && forall c :: c in ready ==> c in s.conns && s.conns[c].loop == l && s.conns[c].status == Added
    case BeginHandle(l, c) =>
      l in s.loops && s.loops[l].phase.Dispatching? && s.loops[l].phase.current == None && c in s.loops[l].phase.active
    case EndHandle(l) =>
      l in s.loops && s.loops[l].phase.Dispatching? && s.loops[l].phase.current.Some?
    case Close(l, c) =>
      && BASE in s.loops && l in s.loops && s.loops[l].Busy()
      && c in s.conns && s.conns[c].loop == l && s.conns[c].state == Connected
    case Take(l) => l in s.loops && s.loops[l].phase == Dispatching({}, None)
    case RunNext(l) =>
      && l in s.loops && s.loops[l].phase.Running? && s.loops[l].next < |s.loops[l].batch|
      && s.loops[l].batch[s.loops[l].next].c in s.conns
      && s.conns[s.loops[l].batch[s.loops[l].next].c].loop in s.loops
    case EndBatch(l) => l in s.loops && s.loops[l].phase.Running? && s.loops[l].next == |s.loops[l].batch|
    case Hold(c) => c in s.conns && s.HasRef(c)
    case Release(c) => c in s.held
  }

  /** `connectEstablished`. */
  function DoEstablish(s: State, c: ConnId): State
    requires c in s.conns
  {
    var k := s.conns[c];
    s.With(c, k.(state := Connected, status := Added, established := k.established + 1))
  }

  /** `removeConnectionInLoop`. */
  function DoRemove(s: State, c: ConnId): State
    requires c in s.conns && s.conns[c].loop in s.loops
  {
    s.(table := s.table - {c}).Push(s.conns[c].loop, Destroy(c))
  }

  /** `connectDestroyed`: disableAll, then remove. */
  function DoDestroy(s: State, c: ConnId): State
    requires c in s.conns
  {
    var k := s.conns[c].DisableAll();
    s.With(c, k.(state := Disconnected, status := New, destroyed := k.destroyed + 1))
  }

  function Popped(s: State, l: LoopId): State
    requires l in s.loops
  {
    s.(loops := s.loops[l := s.loops[l].(next := s.loops[l].next + 1)])
  }

  function Execute(s: State, f: Functor): State
    requires f.c in s.conns && s.conns[f.c].loop in s.loops
  {
    match f
    case Establish(c) => DoEstablish(s, c)
    case Remove(c) => DoRemove(s, c)
    case Destroy(c) => DoDestroy(s, c)
  }

  function Apply(s: State, a: Action): State
    requires Enabled(s, a)
  {
    match a
    case Accept(c, io) =>
      var t := s.With(c, Conn(io, Connecting, New, 0, 0)).(table := s.table + {c});
      if io == BASE then DoEstablish(t, c) else t.Push(io, Establish(c))
    case PollReturns(l, ready) => s.Enter(l, Dispatching(ready, None))
    case BeginHandle(l, c) => s.Enter(l, Dispatching(s.loops[l].phase.active - {c}, Some(c)))
    case EndHandle(l) => s.Enter(l, Dispatching(s.loops[l].phase.active, None))
    case Close(l, c) =>
      var t := s.With(c, s.conns[c].DisableAll().(state := Disconnected));
      if l == BASE then DoRemove(t, c) else t.Push(BASE, Remove(c))
    case Take(l) => s.(loops := s.loops[l := Loop([], s.loops[l].queue, 0, Running)])
    case RunNext(l) =>
      Execute(Popped(s, l), s.loops[l].batch[s.loops[l].next])
    case EndBatch(l) => s.(loops := s.loops[l := s.loops[l].(batch := [], next := 0, phase := Polling)])
    case Hold(c) => s.(held := s.held + {c})
    case Release(c) => s.(held := s.held - {c})
  }

  // ---- the invariant ----

  /** Where a connection stands, told by its state, whether the table lists it, and how many
      Establish, Remove and Destroy functors wait for it: exactly one thing is left to
      happen to it, and that thing is queued exactly once. */
  predicate Stands(k: Conn, listed: bool, e: nat, r: nat, d: nat) {
    match k.state
    case Connecting =>
      k.status == New && listed && e == 1 && r == 0 && d == 0 && k.established == 0 && k.destroyed == 0
    case Connected =>
      k.status == Added && listed && e == 0 && r == 0 && d == 0 && k.established == 1 && k.destroyed == 0
    case Disconnected =>
      && e == 0 && k.established == 1
      && r == (if listed then 1 else 0)
      && r + d + k.destroyed == 1
      && k.status == if k.destroyed == 1 then New else Deleted
  }

  ghost predicate ConnInv(s: State, c: ConnId)
    requires c in s.conns
  {
    var k := s.conns[c];
    && k.loop in s.loops
    && Stands(k, c in s.table, s.Pend(k.loop, Establish(c)), s.Pend(BASE, Remove(c)), s.Pend(k.loop, Destroy(c)))
  }

  /** The loop lists, and handles, registered channels of its own. */
  ghost predicate Fits(s: State, l: LoopId, p: Phase) {
    p.Dispatching? ==> forall c :: c in p.active || p.current == Some(c) ==>
      c in s.conns && s.conns[c].loop == l && s.conns[c].status != New
  }

  /** A loop holds known connections only, and while it dispatches every channel in its
      list is registered. */
  ghost predicate LoopInv(s: State, l: LoopId)
    requires l in s.loops
  {
    var q := s.loops[l];
    && q.Sane()
    && (forall c :: q.Holds(c) ==> c in s.conns)
    && Fits(s, l, q.phase)
  }

  /** Functors wait on the loop that must run them. */
  ghost predicate Placed(s: State) {
    forall l, f :: 0 < s.Pend(l, f) ==> f.c in s.conns && l == if f.Remove? then BASE else s.conns[f.c].loop
  }

  ghost predicate Inv(s: State) {
    && BASE in s.loops
    && (forall l :: l in s.loops ==> LoopInv(s, l))
    && (forall c :: c in s.conns ==> ConnInv(s, c))
    && Placed(s)
    && s.table <= s.conns.Keys && s.held <= s.conns.Keys
  }

  // ---- what the steps do to the functors waiting ----

  lemma PushCounts(s: State, l: LoopId, f: Functor)
    requires l in s.loops && s.loops[l].Sane()
    ensures forall m, g :: s.Push(l, f).Pend(m, g) == s.Pend(m, g) + if m == l && g == f then 1 else 0
  {
    var q := s.loops[l];
    assert q.(queue := q.queue + [f]).Unrun() == q.Unrun() + [f];
  }

  lemma PushHolds(q: Loop, f: Functor)
    ensures forall c :: q.(queue := q.queue + [f]).Holds(c) <==> q.Holds(c) || c == f.c
  {
    forall c ensures Mentions(q.queue + [f], c) <==> Mentions(q.queue, c) || c == f.c {
      assert f in q.queue + [f];
    }
  }

  lemma PopCounts(s: State, l: LoopId)
    requires l in s.loops && s.loops[l].next < |s.loops[l].batch|
    ensures var f := s.loops[l].batch[s.loops[l].next];
            forall m, g :: s.Pend(m, g) == Popped(s, l).Pend(m, g) + if m == l && g == f then 1 else 0
  {
    var q := s.loops[l];
    assert q.Unrun() == [q.batch[q.next]] + q.(next := q.next + 1).Unrun();
  }

  lemma PendingIsHeld(s: State, l: LoopId, f: Functor)
    requires 0 < s.Pend(l, f)
    ensures s.loops[l].Holds(f.c)
  {
    var q := s.loops[l];
    assert f in q.Unrun();
    if f !in q.queue {
      assert f in q.batch[q.next..];
    }
  }

  /** The next functor of a batch is due where it stands, and about a known connection. */
  lemma NextIsPlaced(s: State, l: LoopId)
    requires Inv(s) && l in s.loops && s.loops[l].next < |s.loops[l].batch|
    ensures var f := s.loops[l].batch[s.loops[l].next];
            && 0 < s.Pend(l, f) && f.c in s.conns
            && l == if f.Remove? then BASE else s.conns[f.c].loop
  {
    PopCounts(s, l);
  }

  /** From `s` to `t` only connection `c` is affected, and no loop changes its phase. */
  ghost predicate About(s: State, t: State, c: ConnId) {
    && s.loops.Keys == t.loops.Keys && t.conns.Keys == s.conns.Keys + {c}
    && (forall x :: x in s.conns && x != c ==> t.conns[x] == s.conns[x] && (x in t.table <==> x in s.table))
    && (forall m, g: Functor :: g.c != c ==> t.Pend(m, g) == s.Pend(m, g))
    && forall l :: l in s.loops ==> Grown(s.loops[l], t.loops[l], c)
  }

  /** A loop may come to hold one more connection. */
  ghost predicate Grown(q: Loop, r: Loop, c: ConnId) {
    r.Sane() && r.phase == q.phase && forall x :: r.Holds(x) ==> q.Holds(x) || x == c
  }

  lemma OthersStand(s: State, t: State, c: ConnId, x: ConnId)
    requires About(s, t, c) && x in s.conns && x != c && ConnInv(s, x)
    ensures ConnInv(t, x)
  {
    hide State.Pend;
    hide Stands;
    hide Grown;
  }

  lemma LoopStands(s: State, t: State, c: ConnId, l: LoopId)
    requires About(s, t, c) && l in s.loops && LoopInv(s, l)
    requires c in s.conns ==>
               && t.conns[c].loop == s.conns[c].loop
               && (t.conns[c].status != New || s.conns[c].loop != l || s.loops[l].phase.Running?)
    ensures LoopInv(t, l)
  {
    hide State.Pend;
    hide Loop.Holds;
    hide Loop.Sane;
    assert Grown(s.loops[l], t.loops[l], c);
  }

  /** The functors about `c` wait where they must. */
  ghost predicate PlacedFor(t: State, c: ConnId)
    requires c in t.conns
  {
    forall m, g: Functor :: g.c == c && 0 < t.Pend(m, g) ==> m == if g.Remove? then BASE else t.conns[c].loop
  }

  lemma PlacedStands(s: State, t: State, c: ConnId)
    requires About(s, t, c) && Placed(s) && PlacedFor(t, c)
    ensures Placed(t)
  {
    hide State.Pend;
    hide Grown;
    forall m, g: Functor | 0 < t.Pend(m, g)
      ensures g.c in t.conns && m == if g.Remove? then BASE else t.conns[g.c].loop
    {
      if g.c != c {
        assert t.Pend(m, g) == s.Pend(m, g);
      }
    }
  }

  /** A step about one connection keeps the invariant if it keeps that connection's part. */
  lemma StepAbout(s: State, t: State, c: ConnId)
    requires Inv(s) && About(s, t, c) && ConnInv(t, c)
    requires t.table <= s.table + {c} && t.held == s.held
    requires PlacedFor(t, c)
    requires c in s.conns ==>
               && t.conns[c].loop == s.conns[c].loop
               && (t.conns[c].status != New || s.loops[s.conns[c].loop].phase.Running?)
    ensures Inv(t)
  {
    hide State.Pend;
    hide Stands;
    hide Grown;
    hide Placed;
    hide PlacedFor;
    PlacedStands(s, t, c);
    forall x | x in t.conns && x != c ensures ConnInv(t, x) {
      OthersStand(s, t, c, x);
    }
    forall l | l in t.loops ensures LoopInv(t, l) {
      LoopStands(s, t, c, l);
    }
  }

  lemma ChangeIsAbout(s: State, t: State, c: ConnId)
    requires t.loops == s.loops && t.conns.Keys == s.conns.Keys + {c}
    requires forall l :: l in s.loops ==> LoopInv(s, l)
    requires forall x :: x in s.conns && x != c ==> t.conns[x] == s.conns[x] && (x in t.table <==> x in s.table)
    ensures About(s, t, c)
    ensures forall m, g :: t.Pend(m, g) == s.Pend(m, g)
  {
    hide Loop.Holds;
    hide Loop.Unrun;
  }

  lemma AlterIsAbout(s: State, u: State, t: State, c: ConnId)
    requires About(s, u, c) && t.loops == u.loops && t.conns.Keys == u.conns.Keys
    requires forall x :: x in s.conns && x != c ==> t.conns[x] == s.conns[x] && (x in t.table <==> x in s.table)
    ensures About(s, t, c)
    ensures forall m, g :: t.Pend(m, g) == u.Pend(m, g)
  {
    hide Grown;
    hide Loop.Unrun;
  }

  lemma PushIsAbout(s: State, u: State, l: LoopId, f: Functor)
    requires l in s.loops && About(s, u, f.c)
    ensures About(s, u.Push(l, f), f.c)
    ensures forall m, g :: u.Push(l, f).Pend(m, g) == u.Pend(m, g) + if m == l && g == f then 1 else 0
  {
    var t := u.Push(l, f);
    hide State.Pend;
    hide Loop.Holds;
    assert Grown(s.loops[l], u.loops[l], f.c);
    PushCounts(u, l, f);
    forall m | m in s.loops ensures Grown(s.loops[m], t.loops[m], f.c) {
      PushHolds(u.loops[m], f);
    }
  }

  lemma PopIsAbout(s: State, l: LoopId)
    requires l in s.loops && s.loops[l].next < |s.loops[l].batch|
    requires s.loops[l].batch[s.loops[l].next].c in s.conns
    requires forall m :: m in s.loops ==> LoopInv(s, m)
    ensures About(s, Popped(s, l), s.loops[l].batch[s.loops[l].next].c)
  {
    hide State.Pend;
    hide Mentions;
    PopCounts(s, l);
    assert LoopInv(s, l);
  }

  // ---- each step keeps the invariant ----

  lemma InvParts(s: State)
    requires Inv(s)
    ensures BASE in s.loops && s.table <= s.conns.Keys && s.held <= s.conns.Keys
    ensures forall l :: l in s.loops ==> LoopInv(s, l)
    ensures forall c :: c in s.conns ==> ConnInv(s, c) && PlacedFor(s, c)
    ensures forall l, f: Functor :: f.c !in s.conns ==> s.Pend(l, f) == 0
  {
    hide State.Pend;
    hide LoopInv;
    hide ConnInv;
    forall l, f: Functor | f.c !in s.conns ensures s.Pend(l, f) == 0 {
      assert !(0 < s.Pend(l, f));
    }
  }

  lemma AcceptKeepsInv(s: State, c: ConnId, io: LoopId)
    requires Inv(s) && Enabled(s, Accept(c, io))
    ensures Inv(Apply(s, Accept(c, io))) && About(s, Apply(s, Accept(c, io)), c)
  {
    hide Inv, LoopInv, About, State.Pend;
    InvParts(s);
    var t := Apply(s, Accept(c, io));
    if io == BASE {
      ChangeIsAbout(s, t, c);
      StepAbout(s, t, c);
    } else {
      var u := s.With(c, Conn(io, Connecting, New, 0, 0)).(table := s.table + {c});
      ChangeIsAbout(s, u, c);
      PushIsAbout(s, u, io, Establish(c));
      StepAbout(s, t, c);
    }
  }

  lemma CloseOnBaseKeepsInv(s: State, c: ConnId)
    requires Inv(s) && Enabled(s, Close(BASE, c))
    ensures Inv(Apply(s, Close(BASE, c))) && About(s, Apply(s, Close(BASE, c)), c)
  {
    hide Inv, LoopInv, About, State.Pend;
    InvParts(s);
    var t := Apply(s, Close(BASE, c));
    var u := s.With(c, s.conns[c].DisableAll().(state := Disconnected)).(table := s.table - {c});
    ChangeIsAbout(s, u, c);
    PushIsAbout(s, u, BASE, Destroy(c));
    StepAbout(s, t, c);
  }

  lemma CloseElsewhereKeepsInv(s: State, l: LoopId, c: ConnId)
    requires Inv(s) && Enabled(s, Close(l, c)) && l != BASE
    ensures Inv(Apply(s, Close(l, c))) && About(s, Apply(s, Close(l, c)), c)
  {
    hide Inv, LoopInv, About, State.Pend;
    InvParts(s);
    var t := Apply(s, Close(l, c));
    var u := s.With(c, s.conns[c].DisableAll().(state := Disconnected));
    ChangeIsAbout(s, u, c);
    PushIsAbout(s, u, BASE, Remove(c));
    StepAbout(s, t, c);
  }

  /** `u` is `s` with `f`, about a connection that `s` knows, taken from its batch to be run. */
  ghost predicate AboutToRun(s: State, u: State, f: Functor) {
    && Inv(s) && About(s, u, f.c) && f.c in s.conns && s.conns[f.c].loop in s.loops
    && u.conns == s.conns && u.table == s.table && u.held == s.held && u.loops.Keys == s.loops.Keys
    && PlacedFor(u, f.c)
    && var k := s.conns[f.c];
       Stands(k, f.c in s.table,
              u.Pend(k.loop, Establish(f.c)) + (if f.Establish? then 1 else 0),
              u.Pend(BASE, Remove(f.c)) + (if f.Remove? then 1 else 0),
              u.Pend(k.loop, Destroy(f.c)) + (if f.Destroy? then 1 else 0))
  }

  lemma PopStands(s: State, l: LoopId)
    requires Inv(s) && Enabled(s, RunNext(l))
    ensures var f := s.loops[l].batch[s.loops[l].next];
            AboutToRun(s, Popped(s, l), f) && l == if f.Remove? then BASE else s.conns[f.c].loop
  {
    hide LoopInv, Loop.Holds, Loop.Unrun, Stands, State.Pend, About;
    NextIsPlaced(s, l);
    PopIsAbout(s, l);
    PopCounts(s, l);
    assert ConnInv(s, s.loops[l].batch[s.loops[l].next].c);
  }

  lemma EstablishKeepsInv(s: State, u: State, c: ConnId)
    requires AboutToRun(s, u, Establish(c))
    ensures s.conns[c].state == Connecting
    ensures Inv(DoEstablish(u, c)) && About(s, DoEstablish(u, c), c)
  {
    hide Inv, About, State.Pend;
    var t := DoEstablish(u, c);
    AlterIsAbout(s, u, t, c);
    StepAbout(s, t, c);
  }

  lemma RemoveKeepsInv(s: State, u: State, c: ConnId)
    requires AboutToRun(s, u, Remove(c))
    ensures Inv(DoRemove(u, c)) && About(s, DoRemove(u, c), c)
  {
    hide Inv, About, State.Pend;
    var v := u.(table := u.table - {c});
    AlterIsAbout(s, u, v, c);
    PushIsAbout(s, v, s.conns[c].loop, Destroy(c));
    StepAbout(s, DoRemove(u, c), c);
  }

  lemma DestroyKeepsInv(s: State, u: State, c: ConnId)
    requires AboutToRun(s, u, Destroy(c)) && s.loops[s.conns[c].loop].phase.Running?
    ensures Inv(DoDestroy(u, c)) && About(s, DoDestroy(u, c), c)
  {
    hide Inv, About, State.Pend;
    var t := DoDestroy(u, c);
    AlterIsAbout(s, u, t, c);
    StepAbout(s, t, c);
  }

  lemma CloseIsAbout(s: State, l: LoopId, c: ConnId)
    requires Inv(s) && Enabled(s, Close(l, c))
    ensures Inv(Apply(s, Close(l, c))) && About(s, Apply(s, Close(l, c)), c)
  {
    hide Inv;
    hide Apply;
    if l == BASE {
      CloseOnBaseKeepsInv(s, c);
    } else {
      CloseElsewhereKeepsInv(s, l, c);
    }
  }

  lemma ExecuteKeepsInv(s: State, u: State, f: Functor)
    requires AboutToRun(s, u, f)
    requires f.Destroy? ==> s.loops[s.conns[f.c].loop].phase.Running?
    ensures Inv(Execute(u, f)) && About(s, Execute(u, f), f.c)
  {
    match f
    case Establish(c) => EstablishKeepsInv(s, u, c);
    case Remove(c) => RemoveKeepsInv(s, u, c);
    case Destroy(c) => DestroyKeepsInv(s, u, c);
  }

  lemma RunIsAbout(s: State, l: LoopId)
    requires Inv(s) && Enabled(s, RunNext(l))
    ensures Inv(Apply(s, RunNext(l)))
    ensures About(s, Apply(s, RunNext(l)), s.loops[l].batch[s.loops[l].next].c)
  {
    hide Inv, About, AboutToRun, Execute;
    PopStands(s, l);
    ExecuteKeepsInv(s, Popped(s, l), s.loops[l].batch[s.loops[l].next]);
  }

  /** A step that leaves the connections and the waiting functors as they are. */
  lemma QuietStep(s: State, t: State, l: LoopId)
    requires Inv(s) && l in s.loops && t.conns == s.conns && t.table == s.table && t.held <= s.conns.Keys
    requires l in t.loops && t.loops == s.loops[l := t.loops[l]]
    requires multiset(t.loops[l].Unrun()) == multiset(s.loops[l].Unrun()) && LoopInv(t, l)
    ensures Inv(t)
  {
    hide Loop.Unrun;
    hide Loop.Holds;
    assert forall m, g :: t.Pend(m, g) == s.Pend(m, g);
    hide State.Pend;
    forall m | m in t.loops ensures LoopInv(t, m) {
      if m != l {
        assert LoopInv(s, m);
      }
    }
    forall c | c in t.conns ensures ConnInv(t, c) {
      assert ConnInv(s, c);
    }
  }

  lemma EnterKeepsInv(s: State, l: LoopId, p: Phase)
    requires Inv(s) && l in s.loops && !s.loops[l].phase.Running? && !p.Running? && Fits(s, l, p)
    ensures Inv(s.Enter(l, p))
  {
    hide Inv, Mentions;
    InvAt(s, l);
    var t := s.Enter(l, p);
    assert LoopInv(t, l);
    assert t.loops[l].Unrun() == s.loops[l].Unrun();
    hide LoopInv, Loop.Unrun;
    QuietStep(s, t, l);
  }

  lemma DispatchKeepsInv(s: State, a: Action)
    requires Inv(s) && Enabled(s, a) && (a.PollReturns? || a.BeginHandle? || a.EndHandle?)
    ensures Inv(Apply(s, a))
  {
    hide Inv, Loop.Holds, Loop.Sane;
    InvAt(s, a.l);
    match a
    case PollReturns(l, ready) => EnterKeepsInv(s, l, Dispatching(ready, None));
    case BeginHandle(l, c) => EnterKeepsInv(s, l, Dispatching(s.loops[l].phase.active - {c}, Some(c)));
    case EndHandle(l) => EnterKeepsInv(s, l, Dispatching(s.loops[l].phase.active, None));
  }

  lemma TakeKeepsInv(s: State, l: LoopId)
    requires Inv(s) && Enabled(s, Take(l))
    ensures Inv(Apply(s, Take(l)))
  {
    hide Inv;
    InvAt(s, l);
    assert !exists c :: Mentions([], c);
    hide Mentions;
    assert s.loops[l].Unrun() == s.loops[l].queue;
    assert Loop([], s.loops[l].queue, 0, Running).Unrun() == s.loops[l].queue;
    QuietStep(s, Apply(s, Take(l)), l);
  }

  lemma EndBatchKeepsInv(s: State, l: LoopId)
    requires Inv(s) && Enabled(s, EndBatch(l))
    ensures Inv(Apply(s, EndBatch(l)))
  {
    hide Inv;
    InvAt(s, l);
    assert !exists c :: Mentions([], c);
    hide Mentions;
    assert s.loops[l].Unrun() == s.loops[l].queue;
    assert s.loops[l].(batch := [], next := 0, phase := Polling).Unrun() == s.loops[l].queue;
    QuietStep(s, Apply(s, EndBatch(l)), l);
  }

  lemma InvAt(s: State, l: LoopId)
    requires Inv(s) && l in s.loops
    ensures LoopInv(s, l) && s.held <= s.conns.Keys
  {
    hide ConnInv;
    hide LoopInv;
    hide Placed;
  }

  lemma PointersMayVary(s: State, t: State)
    requires Inv(s) && t.loops == s.loops && t.conns == s.conns && t.table == s.table && t.held <= s.conns.Keys
    ensures Inv(t)
  {
    hide Loop.Holds;
    hide Loop.Unrun;
    assert forall m, g :: t.Pend(m, g) == s.Pend(m, g);
    hide State.Pend;
    forall l | l in t.loops ensures LoopInv(t, l) {
      assert LoopInv(s, l);
    }
    forall c | c in t.conns ensures ConnInv(t, c) {
      assert ConnInv(s, c);
    }
  }

  lemma HoldKeepsInv(s: State, a: Action)
    requires Inv(s) && Enabled(s, a) && (a.Hold? || a.Release?)
    ensures Inv(Apply(s, a))
  {
    hide LoopInv;
    hide ConnInv;
    hide Placed;
    hide State.HasRef;
    PointersMayVary(s, Apply(s, a));
  }

  lemma StepKeepsInv(s: State, a: Action)
    requires Inv(s) && Enabled(s, a)
    ensures Inv(Apply(s, a))
  {
    hide Inv;
    hide Apply;
    match a
    case Accept(c, io) => AcceptKeepsInv(s, c, io);
    case Close(l, c) => CloseIsAbout(s, l, c);
    case RunNext(l) => RunIsAbout(s, l);
    case PollReturns(_, _) => DispatchKeepsInv(s, a);
    case BeginHandle(_, _) => DispatchKeepsInv(s, a);
    case EndHandle(_) => DispatchKeepsInv(s, a);
    case Take(l) => TakeKeepsInv(s, l);
    case EndBatch(l) => EndBatchKeepsInv(s, l);
    case Hold(_) => HoldKeepsInv(s, a);
    case Release(_) => HoldKeepsInv(s, a);
  }

  // ---- runs ----

  /** The loops are up, and nobody has connected yet. */
  predicate Init(s: State) {
    && BASE in s.loops && s.conns == map[] && s.table == {} && s.held == {}
    && forall l :: l in s.loops ==> s.loops[l] == Loop([], [], 0, Polling)
  }

  predicate CanRun(s: State, run: seq<Action>)
    decreases |run|
  {
    run == [] || (Enabled(s, run[0]) && CanRun(Apply(s, run[0]), run[1..]))
  }

  function After(s: State, run: seq<Action>): State
    requires CanRun(s, run)
    decreases |run|
  {
    if run == [] then s else After(Apply(s, run[0]), run[1..])
  }

  lemma InitIsInv(s: State)
    requires Init(s)
    ensures Inv(s)
  {
    assert forall l :: l in s.loops ==> s.loops[l].Unrun() == [];
  }

  lemma {:induction false} RunKeepsInv(s: State, run: seq<Action>)
    requires Inv(s) && CanRun(s, run)
    ensures Inv(After(s, run))
    decreases |run|
  {
    hide Inv;
    if run != [] {
      StepKeepsInv(s, run[0]);
      RunKeepsInv(Apply(s, run[0]), run[1..]);
    }
  }

  // ---- what a server can count on, whatever the interleaving ----

  /** No functor about the connection waits on any loop. */
  ghost predicate NothingDue(s: State, c: ConnId) {
    forall l, f: Functor :: f.c == c ==> s.Pend(l, f) == 0
  }

  lemma NothingDueIff(s: State, c: ConnId)
    requires Placed(s) && c in s.conns
    ensures var l := s.conns[c].loop;
            NothingDue(s, c) <==>
              s.Pend(l, Establish(c)) == 0 && s.Pend(BASE, Remove(c)) == 0 && s.Pend(l, Destroy(c)) == 0
  {
    hide State.Pend;
    var k := s.conns[c];
    if s.Pend(k.loop, Establish(c)) == 0 && s.Pend(BASE, Remove(c)) == 0 && s.Pend(k.loop, Destroy(c)) == 0 {
      forall l, f: Functor | f.c == c ensures s.Pend(l, f) == 0 {
        assert 0 < s.Pend(l, f) ==> l == if f.Remove? then BASE else k.loop;
      }
    }
  }

  /** In every run: connectEstablished before connectDestroyed, each at most once, and
      destroyed exactly if the table has dropped the connection and nothing is queued for it
      any more. */
  lemma LifecycleIsSafe(s: State, run: seq<Action>, c: ConnId)
    requires Init(s) && CanRun(s, run) && c in After(s, run).conns
    ensures var t := After(s, run); var k := t.conns[c];
            && k.destroyed <= k.established <= 1
            && (k.destroyed == 1 <==> c !in t.table && NothingDue(t, c))
            && (k.destroyed == 1 ==> k.state == Disconnected)
            && (k.state == Connected <==> k.status == Added)
  {
    InitIsInv(s);
    RunKeepsInv(s, run);
    var t := After(s, run);
    assert ConnInv(t, c);
    assert Placed(t);
    hide Inv;
    NothingDueIff(t, c);
  }

  /** While a functor is still due, it holds the connection. */
  lemma UnreferencedHasNothingDue(s: State, f: Functor, l: LoopId)
    requires !s.HasRef(f.c)
    ensures s.Pend(l, f) == 0
  {
    if 0 < s.Pend(l, f) {
      PendingIsHeld(s, l, f);
    }
  }

  lemma NothingDueMeansDestroyed(k: Conn)
    requires Stands(k, false, 0, 0, 0)
    ensures k == Conn(k.loop, Disconnected, New, 1, 1)
  {
  }

  /** The last pointer dies only after the channel is unregistered, wherever it dies. */
  lemma LastReferenceIsUnregistered(s: State, c: ConnId)
    requires Inv(s) && c in s.conns && !s.HasRef(c)
    ensures s.conns[c] == Conn(s.conns[c].loop, Disconnected, New, 1, 1)
    ensures forall l :: l in s.loops && s.loops[l].phase.Dispatching? ==> c !in s.loops[l].phase.active
  {
    assert ConnInv(s, c);
    var k := s.conns[c];
    UnreferencedHasNothingDue(s, Establish(c), k.loop);
    UnreferencedHasNothingDue(s, Remove(c), BASE);
    UnreferencedHasNothingDue(s, Destroy(c), k.loop);
    assert c !in s.table;
    hide State.HasRef;
    hide State.Pend;
    hide Loop.Holds;
    hide Stands;
    NothingDueMeansDestroyed(k);
    forall l | l in s.loops && s.loops[l].phase.Dispatching? ensures c !in s.loops[l].phase.active {
      assert LoopInv(s, l);
    }
  }

  /** So the channels a loop is about to visit belong to live connections. */
  lemma ActiveChannelsAreAlive(s: State, l: LoopId, c: ConnId)
    requires Inv(s) && l in s.loops && s.loops[l].phase.Dispatching? && c in s.loops[l].phase.active
    ensures s.HasRef(c) && s.conns[c].loop == l && s.conns[c].status != New
  {
    assert LoopInv(s, l);
    if !s.HasRef(c) {
      LastReferenceIsUnregistered(s, c);
    }
  }

  predicate Unregisters(s: State, t: State, c: ConnId) {
    c in s.conns && c in t.conns && s.conns[c].status != New && t.conns[c].status == New
  }

  /** A channel is unregistered by its own loop, between two passes over the channels. */
  lemma UnregisteredBetweenPasses(s: State, a: Action, c: ConnId)
    requires Inv(s) && Enabled(s, a) && Unregisters(s, Apply(s, a), c)
    ensures a == RunNext(s.conns[c].loop) && s.loops[s.conns[c].loop].phase == Running
  {
    hide Inv;
    hide Loop.Holds;
    assert a.RunNext?;
    NextIsPlaced(s, a.l);
  }

  /** A functor in a batch can always run: it is about a known connection, in the loop that
      the connection's asserts demand, and connectEstablished finds it connecting. */
  lemma FunctorsRunWhereTheyMust(s: State, l: LoopId)
    requires Inv(s) && l in s.loops && s.loops[l].next < |s.loops[l].batch|
    ensures Enabled(s, RunNext(l))
    ensures var f := s.loops[l].batch[s.loops[l].next];
            && l == (if f.Remove? then BASE else s.conns[f.c].loop)
            && (f.Establish? ==> s.conns[f.c].state == Connecting)
            && (!f.Establish? ==> s.conns[f.c].state == Disconnected)
  {
    var f := s.loops[l].batch[s.loops[l].next];
    NextIsPlaced(s, l);
    assert LoopInv(s, l);
    assert ConnInv(s, f.c);
  }

  /** The table lists a connection from its acceptance exactly until its removal step. */
  lemma ListedUntilRemoved(s: State, a: Action, c: ConnId)
    requires Inv(s) && Enabled(s, a) && c in s.conns
    ensures c in Apply(s, a).table <==>
              && c in s.table
              && a != Close(BASE, c)
              && !(a.RunNext? && s.loops[a.l].batch[s.loops[a.l].next] == Remove(c))
  {
    hide State.Pend;
    hide Loop.Holds;
    assert ConnInv(s, c);
  }

  lemma StaysUnheld(s: State, t: State, x: ConnId, c: ConnId)
    requires About(s, t, x) && x != c && c in s.conns && t.held == s.held && !s.HasRef(c)
    ensures !t.HasRef(c)
  {
    hide Loop.Holds;
    forall l | l in t.loops ensures !t.loops[l].Holds(c) {
      assert Grown(s.loops[l], t.loops[l], x);
    }
  }

  lemma NextIsHeld(q: Loop)
    requires q.next < |q.batch|
    ensures q.Holds(q.batch[q.next].c)
  {
    assert q.batch[q.next] in q.batch;
  }

  lemma AboutOthersRevivesNobody(s: State, a: Action, x: ConnId, c: ConnId)
    requires Inv(s) && Enabled(s, a) && c in s.conns && !s.HasRef(c)
    requires a.Accept? || a.Close? || a.RunNext?
    requires x != c && About(s, Apply(s, a), x)
    ensures !Apply(s, a).HasRef(c)
  {
    hide Inv;
    hide About;
    hide State.HasRef;
    StaysUnheld(s, Apply(s, a), x, c);
  }

  lemma RunRevivesNobody(s: State, l: LoopId, c: ConnId)
    requires Inv(s) && Enabled(s, RunNext(l)) && c in s.conns && !s.HasRef(c)
    ensures !Apply(s, RunNext(l)).HasRef(c)
  {
    hide Inv;
    hide About;
    hide Apply;
    NextIsHeld(s.loops[l]);
    assert !s.loops[l].Holds(c);
    hide State.HasRef;
    RunIsAbout(s, l);
    AboutOthersRevivesNobody(s, RunNext(l), s.loops[l].batch[s.loops[l].next].c, c);
  }

  lemma PhaseRevivesNobody(s: State, a: Action, c: ConnId)
    requires Enabled(s, a) && c in s.conns && !s.HasRef(c)
    requires a.PollReturns? || a.BeginHandle? || a.EndHandle? || a.Take? || a.EndBatch?
    requires a.BeginHandle? ==> a.c != c
    ensures !Apply(s, a).HasRef(c)
  {
    assert !s.loops[a.l].Holds(c);
    assert !Mentions([], c);
    hide Mentions;
    assert !Apply(s, a).loops[a.l].Holds(c);
  }

  lemma HoldRevivesNobody(s: State, a: Action, c: ConnId)
    requires Enabled(s, a) && c in s.conns && !s.HasRef(c) && (a.Hold? || a.Release?)
    ensures !Apply(s, a).HasRef(c)
  {
    hide Loop.Holds;
  }

  /** Nothing revives a connection that lost its last reference. */
  lemma NoResurrection(s: State, a: Action, c: ConnId)
    requires Inv(s) && Enabled(s, a) && c in s.conns && !s.HasRef(c)
    ensures !Apply(s, a).HasRef(c)
  {
    LastReferenceIsUnregistered(s, c);
    hide Inv;
    hide About;
    hide Apply;
    hide State.HasRef;
    if a.Accept? {
      AcceptKeepsInv(s, a.c, a.io);
      AboutOthersRevivesNobody(s, a, a.c, c);
    } else if a.Close? {
      CloseIsAbout(s, a.l, a.c);
      AboutOthersRevivesNobody(s, a, a.c, c);
    } else if a.RunNext? {
      RunRevivesNobody(s, a.l, c);
    } else if a.Hold? || a.Release? {
      HoldRevivesNobody(s, a, c);
    } else {
      PhaseRevivesNobody(s, a, c);
    }
  }

  /** With every loop idle and no pointer in user code, the references left are those of
      the connected connections: all others have been destroyed and freed. */
  lemma NothingLeaks(s: State, c: ConnId)
    requires Inv(s) && c in s.conns && s.held == {}
    requires forall l :: l in s.loops ==> s.loops[l] == Loop([], [], 0, Polling)
    ensures s.HasRef(c) <==> s.conns[c].state == Connected
    ensures s.conns[c].state != Connected ==> s.conns[c].destroyed == 1
  {
    assert forall l :: l in s.loops ==> s.loops[l].Unrun() == [];
    assert ConnInv(s, c);
  }

  // ---- one whole life ----

  const IO: LoopId := 1
  const FIRST: ConnId := 0
  const IDLE := Loop([], [], 0, Polling)
  const BUSY := Loop([], [], 0, Dispatching({}, None))

  /** The two loops, and the one connection, which the table lists. */
  function Scene(base: Loop, io: Loop, k: Conn): State {
    State(map[BASE := base, IO := io], map[FIRST := k], {FIRST}, {})
  }

  lemma {:induction false} ExtendFrom(s: State, run: seq<Action>, a: Action)
    requires CanRun(s, run) && Enabled(After(s, run), a)
    ensures CanRun(s, run + [a]) && After(s, run + [a]) == Apply(After(s, run), a)
    decreases |run|
  {
    hide Enabled, Apply;
    if run == [] {
      assert ([] + [a])[1..] == [];
    } else {
      assert (run + [a])[1..] == run[1..] + [a];
      ExtendFrom(Apply(s, run[0]), run[1..], a);
    }
  }

  lemma Extend(s: State, run: seq<Action>, a: Action) returns (longer: seq<Action>)
    requires CanRun(s, run) && Enabled(After(s, run), a)
    ensures CanRun(s, longer) && After(s, longer) == Apply(After(s, run), a)
  {
    hide Enabled, Apply;
    longer := run + [a];
    ExtendFrom(s, run, a);
  }

  lemma UntilAccepted() returns (s: State, run: seq<Action>)
    ensures Init(s) && CanRun(s, run)
    ensures After(s, run) == Scene(BUSY, Loop([Establish(FIRST)], [], 0, Polling), Conn(IO, Connecting, New, 0, 0))
  {
    s := State(map[BASE := IDLE, IO := IDLE], map[], {}, {});
    run := Extend(s, [], PollReturns(BASE, {}));
    run := Extend(s, run, Accept(FIRST, IO));
    var t := After(s, run);
    assert t.table == {FIRST} && t.conns == map[FIRST := Conn(IO, Connecting, New, 0, 0)];
    assert t.loops[BASE] == BUSY && t.loops[IO] == Loop([Establish(FIRST)], [], 0, Polling);
    assert t.loops.Keys == {BASE, IO};
  }

  lemma UntilTaken() returns (s: State, run: seq<Action>)
    ensures Init(s) && CanRun(s, run)
    ensures After(s, run) == Scene(BUSY, Loop([], [Establish(FIRST)], 0, Running), Conn(IO, Connecting, New, 0, 0))
  {
    s, run := UntilAccepted();
    run := Extend(s, run, PollReturns(IO, {}));
    run := Extend(s, run, Take(IO));
  }

  lemma UntilEstablished() returns (s: State, run: seq<Action>)
    ensures Init(s) && CanRun(s, run)
    ensures After(s, run) == Scene(BUSY, IDLE, Conn(IO, Connected, Added, 1, 0))
  {
    s, run := UntilTaken();
    run := Extend(s, run, RunNext(IO));
    run := Extend(s, run, EndBatch(IO));
  }

  lemma UntilHandled() returns (s: State, run: seq<Action>)
    ensures Init(s) && CanRun(s, run)
    ensures After(s, run) ==
              Scene(BUSY, Loop([], [], 0, Dispatching({}, Some(FIRST))), Conn(IO, Connected, Added, 1, 0))
  {
    s, run := UntilEstablished();
    run := Extend(s, run, PollReturns(IO, {FIRST}));
    run := Extend(s, run, BeginHandle(IO, FIRST));
    assert {FIRST} - {FIRST} == {};
  }

  lemma UntilClosing() returns (s: State, run: seq<Action>)
    ensures Init(s) && CanRun(s, run)
    ensures After(s, run) ==
              Scene(Loop([Remove(FIRST)], [], 0, Dispatching({}, None)),
                    Loop([], [], 0, Dispatching({}, Some(FIRST))), Conn(IO, Disconnected, Deleted, 1, 0))
  {
    s, run := UntilHandled();
    run := Extend(s, run, Close(IO, FIRST));
    var t := After(s, run);
    assert t.loops[BASE] == Loop([Remove(FIRST)], [], 0, Dispatching({}, None));
    assert t.conns == map[FIRST := Conn(IO, Disconnected, Deleted, 1, 0)];
  }

  lemma UntilClosed() returns (s: State, run: seq<Action>)
    ensures Init(s) && CanRun(s, run)
    ensures After(s, run) ==
              Scene(Loop([Remove(FIRST)], [], 0, Dispatching({}, None)), IDLE, Conn(IO, Disconnected, Deleted, 1, 0))
  {
    s, run := UntilClosing();
    run := Extend(s, run, EndHandle(IO));
    run := Extend(s, run, Take(IO));
    run := Extend(s, run, EndBatch(IO));
    assert After(s, run).loops[IO] == IDLE;
  }

  lemma UntilRemoved() returns (s: State, run: seq<Action>)
    ensures Init(s) && CanRun(s, run)
    ensures After(s, run) ==
              Scene(IDLE, Loop([Destroy(FIRST)], [], 0, Polling), Conn(IO, Disconnected, Deleted, 1, 0)).(table := {})
  {
    s, run := UntilClosed();
    run := Extend(s, run, Take(BASE));
    run := Extend(s, run, RunNext(BASE));
    run := Extend(s, run, EndBatch(BASE));
    var t := After(s, run);
    assert t.loops[IO] == Loop([Destroy(FIRST)], [], 0, Polling) && t.table == {};
  }

  lemma UntilDue() returns (s: State, run: seq<Action>)
    ensures Init(s) && CanRun(s, run)
    ensures After(s, run) ==
              Scene(IDLE, Loop([], [Destroy(FIRST)], 0, Running), Conn(IO, Disconnected, Deleted, 1, 0)).(table := {})
  {
    s, run := UntilRemoved();
    run := Extend(s, run, PollReturns(IO, {}));
    run := Extend(s, run, Take(IO));
    assert After(s, run).loops[IO] == Loop([], [Destroy(FIRST)], 0, Running);
  }

  /** One connection on an IO loop: accepted, established, closed while its event is handled,
      removed, destroyed and freed. */
  lemma WholeLife() returns (s: State, run: seq<Action>)
    ensures Init(s) && CanRun(s, run)
    ensures var t := After(s, run);
            t.conns == map[FIRST := Conn(IO, Disconnected, New, 1, 1)] && t.table == {} && !t.HasRef(FIRST)
  {
    s, run := UntilDue();
    run := Extend(s, run, RunNext(IO));
    run := Extend(s, run, EndBatch(IO));
    var t := After(s, run);
    assert t.loops == map[BASE := IDLE, IO := IDLE];
  }
}
