/** How the loops of module Lifecycle order their work: functors are run first come, first
    served, every channel that a poll reports is handled once before the loop goes on, and
    pointers held by user code stay. */
module LifecycleLaws {
  import opened Options
  import opened Lifecycle

  // ---- functors ----

  /** What a step queues on a loop: the three hops of a connection. */
  function Queued(s: State, a: Action, l: LoopId): seq<Functor>
    requires Enabled(s, a)
  {
    match a
    case Accept(c, io) => if io == l && io != BASE then [Establish(c)] else []
    case Close(m, c) =>
      if m == BASE then (if s.conns[c].loop == l then [Destroy(c)] else [])
      else if l == BASE then [Remove(c)] else []
    case RunNext(m) =>
      var f := s.loops[m].batch[s.loops[m].next];
      if f.Remove? && s.conns[f.c].loop == l then [Destroy(f.c)] else []
    case _ => []
  }

  lemma RunIsFifo(s: State, m: LoopId, l: LoopId)
    requires Inv(s) && Enabled(s, RunNext(m)) && l in s.loops
    ensures var t := Apply(s, RunNext(m)); var f := s.loops[m].batch[s.loops[m].next];
            && l in t.loops && t.loops[l].batch == s.loops[l].batch
            && var before, after := s.loops[l].Unrun(), t.loops[l].Unrun();
               (if l == m then [f] + after else after) == before + Queued(s, RunNext(m), l)
  {
    hide State.HasRef, Loop.Holds, Inv;
    InvAt(s, l);
    var f, q := s.loops[m].batch[s.loops[m].next], s.loops[l];
    assert l == m ==> q.Unrun() == [f] + q.(next := q.next + 1).Unrun();
    assert q.Unrun() + [] == q.Unrun();
  }

  /** A loop's functors stay in the order in which they were queued; they leave from the
      front, by being run, and new ones come in at the back.  A functor that has run keeps its
      references until the batch is done. */
  lemma QueuesAreFifo(s: State, a: Action, l: LoopId)
    requires Inv(s) && Enabled(s, a) && l in s.loops
    ensures l in Apply(s, a).loops
    ensures var before, after := s.loops[l].Unrun(), Apply(s, a).loops[l].Unrun();
            if a == RunNext(l) then
              && [s.loops[l].batch[s.loops[l].next]] + after == before + Queued(s, a, l)
              && Apply(s, a).loops[l].batch == s.loops[l].batch
            else after == before + Queued(s, a, l)
  {
    hide State.HasRef, Loop.Holds, Inv, Execute;
    InvAt(s, l);
    var q := s.loops[l];
    if a.RunNext? {
      RunIsFifo(s, a.l, l);
    } else {
      assert q.Unrun() + [] == q.Unrun();
      if a == Take(l) || a == EndBatch(l) {
        assert q.Unrun() == q.queue == Apply(s, a).loops[l].Unrun();
      }
    }
  }

  // ---- channels ----

  /** The channels that the loop's last poll has reported. */
  function Reported(run: seq<Action>, l: LoopId): set<ConnId> {
    if run == [] then {}
    else
      var last := run[|run| - 1];
      if last.PollReturns? && last.l == l then last.ready else Reported(run[..|run| - 1], l)
  }

  /** How often the loop has begun to handle a channel since then. */
  function TimesHandled(run: seq<Action>, l: LoopId, c: ConnId): nat {
    if run == [] then 0
    else
      var last := run[|run| - 1];
      if last.PollReturns? && last.l == l then 0
      else TimesHandled(run[..|run| - 1], l, c) + if last == BeginHandle(l, c) then 1 else 0
  }

  /** While a loop dispatches, the channels reported are those handled once and those still
      to be handled. */
  ghost predicate Passing(s: State, run: seq<Action>, l: LoopId, c: ConnId) {
    l in s.loops && s.loops[l].phase.Dispatching? ==>
      TimesHandled(run, l, c) + (if c in s.loops[l].phase.active then 1 else 0)
      == if c in Reported(run, l) then 1 else 0
  }

  lemma StepIsPassing(s: State, run: seq<Action>, a: Action, l: LoopId, c: ConnId)
    requires Passing(s, run, l, c) && Enabled(s, a)
    ensures Passing(Apply(s, a), run + [a], l, c)
  {
    hide State.HasRef;
    var longer := run + [a];
    assert longer[..|longer| - 1] == run && longer[|longer| - 1] == a;
  }

  lemma {:induction false} SplitLast(s: State, run: seq<Action>, a: Action)
    requires CanRun(s, run + [a])
    ensures CanRun(s, run) && Enabled(After(s, run), a) && After(s, run + [a]) == Apply(After(s, run), a)
    decreases |run|
  {
    hide Enabled, Apply;
    if run == [] {
      assert ([] + [a])[1..] == [];
    } else {
      assert (run + [a])[1..] == run[1..] + [a];
      SplitLast(Apply(s, run[0]), run[1..], a);
    }
  }

  lemma {:induction false} RunIsPassing(s: State, run: seq<Action>, l: LoopId, c: ConnId)
    requires Init(s) && CanRun(s, run)
    ensures Passing(After(s, run), run, l, c)
    decreases |run|
  {
    hide Enabled, Apply;
    if run != [] {
      hide Passing;
      var shorter, last := run[..|run| - 1], run[|run| - 1];
      assert run == shorter + [last];
      SplitLast(s, shorter, last);
      RunIsPassing(s, shorter, l, c);
      StepIsPassing(After(s, shorter), shorter, last, l, c);
    }
  }

  /** In every run, when a loop goes on to its functors, each channel that its poll reported
      has been handled exactly once, and no other has been. */
  lemma EveryReportIsHandledOnce(s: State, run: seq<Action>, l: LoopId, c: ConnId)
    requires Init(s) && CanRun(s, run) && Enabled(After(s, run), Take(l))
    ensures TimesHandled(run, l, c) == if c in Reported(run, l) then 1 else 0
  {
    RunIsPassing(s, run, l, c);
  }

  // ---- pointers ----

  /** A pointer held by user code stays until it is released, and the guard of an event until
      the event has been handled. */
  lemma PointersStay(s: State, a: Action, l: LoopId, c: ConnId)
    requires Enabled(s, a) && l in s.loops
    ensures var t := Apply(s, a);
            && (c in t.held <==> a == Hold(c) || (c in s.held && a != Release(c)))
            && l in t.loops
            && (t.loops[l].phase.Dispatching? && t.loops[l].phase.current == Some(c) <==>
                  || a == BeginHandle(l, c)
                  || (s.loops[l].phase.Dispatching? && s.loops[l].phase.current == Some(c) && a != EndHandle(l)))
  {
    hide State.HasRef;
  }
}
