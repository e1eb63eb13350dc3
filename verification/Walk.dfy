/** A run, and each loop iteration, as a walk over the topological order that dispatches
    what is due in one execution state, step by step. */
module Walk {
  import opened Common
  import opened Digraph
  import opened DataValues
  import opened PipelineGraph
  import opened GraphUtils
  import opened LoopHelpers
  import opened LoopBody
  import opened ExecutionBudget
  import opened Host
  import opened NodeResults
  import opened RunGraph
  import opened RunTrace
  import opened TraceSteps

  /** One execution state and the scheduler at one moment. */
  datatype Moment = Moment(events: Trace, view: View, budget: Budget, tick: nat)

  /** The iterations made between two moments are counted, and the counters are bounded. */
  ghost predicate Counted(s: Moment, t: Moment, depth: nat) {
    && Spent(s.budget, t.budget, depth)
    && t.budget.iterationsUsed - s.budget.iterationsUsed == IterationsIn(t.events) - IterationsIn(s.events)
  }

  /** What is due among the nodes before position `j` is settled. */
  ghost predicate PassedSettled(order: seq<NodeId>, j: nat, due: set<NodeId>, states: NodeStates)
    requires j <= |order|
  {
    forall k :: 0 <= k < j && order[k] in due ==> order[k] in states && Settled(states[order[k]].status)
  }

  /** Before the first dispatch nothing has changed. */
  ghost predicate Untouched(order: seq<NodeId>, j: nat, due: set<NodeId>, s: Moment, t: Moment)
    requires j <= |order|
  {
    t.view == s.view && t.budget == s.budget && forall k :: 0 <= k < j ==> order[k] !in due
  }

  /** The walk has passed the first `j` nodes of the order. */
  ghost predicate Walking(
    job: Job, order: seq<NodeId>, j: nat, place: Place, due: set<NodeId>, depth: nat, s: Moment, t: Moment)
    requires j <= |order|
  {
    && Tracks(job, place, t.events, t.view)
    && TraceSound(job, place, t.events)
    && Behind(order, j, t.events)
    && PassedSettled(order, j, due, t.view.states)
    && Counted(s, t, depth) && Timed(t.events, s.tick, t.tick)
    && (if t.events == [] then Untouched(order, j, due, s, t) else s.budget.iterationsUsed < s.budget.maxIterations)
  }

  /** What holds of a walk when it stops, whether at its end or because something threw. */
  ghost predicate Walked(job: Job, place: Place, depth: nat, s: Moment, t: Moment) {
    TraceSound(job, place, t.events) && Counted(s, t, depth) && Timed(t.events, s.tick, t.tick)
  }

  /** What a dispatch does: it adds one sound event to the trace, unless the budget check
      refuses it, and changes the execution state as that event says. */
  ghost predicate Ran(job: Job, place: Place, n: NodeId, depth: nat, s: Moment, t: Moment, ok: bool) {
    && (t.events == s.events || NewEvent(job, place, n, s, t, ok))
    && Counted(s, t, depth) && s.tick <= t.tick
    && (ok ==> t.events != s.events && s.budget.iterationsUsed < s.budget.maxIterations)
  }

  ghost predicate NewEvent(job: Job, place: Place, n: NodeId, s: Moment, t: Moment, ok: bool) {
    && |t.events| == |s.events| + 1
    && var e := t.events[|s.events|];
    && t.events == s.events + [e]
    && e.node == n && e.at == s.view && s.tick <= e.tick <= e.done <= t.tick
    && EventSound(job, place, s.events, e)
    && (e.left.Some? <==> ok) && (ok ==> Moved(job, e, t.view))
  }

  /** A dispatch that passed the budget check, with the event it leaves. */
  lemma NewEventRan(job: Job, place: Place, n: NodeId, depth: nat, s: Moment, t: Moment, e: Event, ok: bool)
    requires Dispatchable(job, place, s.events, s.view, n)
    requires t.events == s.events + [e] && e.node == n && e.at == s.view && s.tick <= e.tick <= e.done <= t.tick
    requires EventRan(job, e) && s.budget.iterationsUsed < s.budget.maxIterations
    requires Spent(s.budget, t.budget, depth)
    requires t.budget.iterationsUsed == s.budget.iterationsUsed + IterationsOf(e.iterations)
    requires (e.left.Some? <==> ok) && (ok ==> Moved(job, e, t.view))
    ensures Ran(job, place, n, depth, s, t, ok)
    ensures Threw(job, e) ==> TraceThrew(job, t.events)
  {
    OneMoreEvent(s.events, e);
    assert t.events[|s.events|] == e;
  }

  // ----- steps of a walk -----

  lemma WalkStarts(job: Job, order: seq<NodeId>, place: Place, due: set<NodeId>, depth: nat, s: Moment)
    requires Tracks(job, place, [], s.view) && s.events == []
    ensures Walking(job, order, 0, place, due, depth, s, s)
  {
  }

  lemma WalkPasses(
    job: Job, order: seq<NodeId>, j: nat, place: Place, due: set<NodeId>, depth: nat, s: Moment, t: Moment)
    requires j < |order| && Walking(job, order, j, place, due, depth, s, t)
    requires order[j] in due ==>
               order[j] in t.view.states && Settled(t.view.states[order[j]].status) && t.events != []
    ensures Walking(job, order, j + 1, place, due, depth, s, t)
  {
    BehindLater(order, j, t.events);
  }

  lemma BehindLater(order: seq<NodeId>, j: nat, events: Trace)
    requires j < |order| && Behind(order, j, events)
    ensures Behind(order, j + 1, events)
  {
    assert order[..j + 1] == order[..j] + [order[j]];
  }

  /** Nothing is cut off before the first dispatch. */
  lemma NothingDecidedYet(job: Job, place: Place, v: View, n: NodeId)
    requires Tracks(job, place, [], v)
    ensures IsControlPathActive(n, job.g, v.activated, v.deactivated)
  {
    forall id ensures id !in v.deactivated {
      assert !DecidedBy(job, [], id, false);
    }
  }

  lemma WalkMarks(
    job: Job, order: seq<NodeId>, j: nat, place: Place, due: set<NodeId>, depth: nat,
    s: Moment, t: Moment, t': Moment)
    requires j < |order| && Walking(job, order, j, place, due, depth, s, t)
    requires order[j] in t.view.states && t.view.states[order[j]].status == Pending
    requires !IsControlPathActive(order[j], job.g, t.view.activated, t.view.deactivated)
    requires t' == t.(view := t.view.(states := SetStatus(t.view.states, order[j], Skipped)))
    ensures Walking(job, order, j + 1, place, due, depth, s, t')
  {
    var n := order[j];
    assert t.view.states[n] == IDLE;
    PassingKeeps(job, place, t.events, t.view, n, t'.view);
    BehindLater(order, j, t.events);
    if t.events == [] {
      NothingDecidedYet(job, place, t.view, n);
    }
  }

  lemma SettledStays(job: Job, e: Event, v: View, m: NodeId)
    requires e.left.Some? && Moved(job, e, v)
    requires m in e.at.states && Settled(e.at.states[m].status)
    ensures m in v.states && Settled(v.states[m].status)
  {
  }

  lemma StillPassed(
    job: Job, order: seq<NodeId>, j: nat, due: set<NodeId>, e: Event, v: View)
    requires j < |order| && e.left.Some? && Moved(job, e, v) && e.node == order[j]
    requires PassedSettled(order, j, due, e.at.states)
    ensures PassedSettled(order, j + 1, due, v.states)
  {
    forall k | 0 <= k < j && order[k] in due ensures order[k] in v.states && Settled(v.states[order[k]].status) {
      SettledStays(job, e, v, order[k]);
    }
  }

  lemma CountedTrans(s: Moment, t: Moment, u: Moment, depth: nat, d: nat)
    requires Counted(s, t, depth) && Counted(t, u, d) && d <= depth
    ensures Counted(s, u, depth)
  {
    SpentTrans(s.budget, t.budget, u.budget, depth, d);
  }

  lemma TimedSnoc(events: Trace, e: Event, from: nat, now: nat, to: nat)
    requires Timed(events, from, now) && now <= e.tick <= e.done <= to
    ensures Timed(events + [e], from, to)
  {
  }

  lemma TimedLonger(events: Trace, from: nat, now: nat, to: nat)
    requires Timed(events, from, now) && now <= to
    ensures Timed(events, from, to)
  {
  }

  /** The trace with the new event, whether it returned or threw. */
  lemma WalkGoesOn(
    job: Job, order: seq<NodeId>, j: nat, place: Place, due: set<NodeId>, depth: nat, d: nat,
    s: Moment, t: Moment, t': Moment, ok: bool)
    requires j < |order| && Walking(job, order, j, place, due, depth, s, t)
    requires Ran(job, place, order[j], d, t, t', ok) && d <= depth
    ensures Walked(job, place, depth, s, t')
  {
    CountedTrans(s, t, t', depth, d);
    if t'.events == t.events {
      TimedLonger(t.events, s.tick, t.tick, t'.tick);
    } else {
      var e := t'.events[|t.events|];
      TimedSnoc(t.events, e, s.tick, t.tick, t'.tick);
      SoundSnoc(job, place, t.events, e);
    }
  }

  lemma WalkRuns(
    job: Job, order: seq<NodeId>, j: nat, place: Place, due: set<NodeId>, depth: nat, d: nat,
    s: Moment, t: Moment, t': Moment)
    requires Runnable(job.g, order)
    requires j < |order| && Walking(job, order, j, place, due, depth, s, t) && StartedBefore(order, j, place)
    requires order[j] in t.view.states && t.view.states[order[j]].status == Pending
    requires Ran(job, place, order[j], d, t, t', true) && d <= depth
    ensures Walking(job, order, j + 1, place, due, depth, s, t')
  {
    var e := t'.events[|t.events|];
    WalkGoesOn(job, order, j, place, due, depth, d, s, t, t', true);
    InOrderLeavesAlone(job.g, order, j, place, t.events, e);
    DispatchKeeps(job, place, t.events, e, t'.view);
    StillPassed(job, order, j, due, e, t'.view);
    BehindLater(order, j, t.events);
    BehindSnoc(order, j, t.events, e);
  }

  lemma BehindSnoc(order: seq<NodeId>, j: nat, events: Trace, e: Event)
    requires j < |order| && Behind(order, j + 1, events) && e.node == order[j]
    ensures Behind(order, j + 1, events + [e])
  {
    assert order[..j + 1][j] == order[j];
  }

  // ----- what a walk finds -----

  lemma InOrderMeansPassed(order: seq<NodeId>, j: nat, due: set<NodeId>, states: NodeStates, a: NodeId)
    requires j <= |order| && PassedSettled(order, j, due, states) && a in due && a in order[..j]
    ensures a in states && Settled(states[a].status)
  {
    var k :| 0 <= k < |order[..j]| && order[..j][k] == a;
    assert order[k] == a;
  }

  /** A node whose turn it is finds its data predecessors settled, if all of them were due. */
  lemma DuePredsAreSettled(g: Graph, order: seq<NodeId>, j: nat, due: set<NodeId>, states: NodeStates)
    requires Runnable(g, order) && j < |order| && PassedSettled(order, j, due, states)
    requires forall a :: (a, order[j]) in DataRel(g) && a !in due ==> a in states && Settled(states[a].status)
    ensures Ready(g, order[j], states)
  {
    forall a | (a, order[j]) in DataRel(g) ensures a in states && Settled(states[a].status) {
      if a in due {
        InOrderMeansPassed(order, j, due, states, a);
      }
    }
  }

  lemma AdmittedInTurn(
    job: Job, order: seq<NodeId>, j: nat, place: Place, due: set<NodeId>, depth: nat, s: Moment, t: Moment)
    requires j < |order| && Runnable(job.g, order) && Walking(job, order, j, place, due, depth, s, t)
    requires order[j] in due
    requires match place
             case RunItself => due == job.g.nodes.Keys
             case IterationOf(l, _) => IsLoop(job.g, l) && forall n :: n in due <==> InRunBody(job.g, l, n)
    ensures Admitted(job.g, place, order[j], t.view.states)
  {
    RelInsideNodes(job.g);
    if place.RunItself? || SelfFed(job.g, place.loop, order[j]) {
      DuePredsAreSettled(job.g, order, j, due, t.view.states);
    }
  }

  lemma DispatchableInTurn(
    job: Job, order: seq<NodeId>, j: nat, place: Place, due: set<NodeId>, depth: nat, s: Moment, t: Moment)
    requires j < |order| && Runnable(job.g, order) && Walking(job, order, j, place, due, depth, s, t)
    requires order[j] in due && order[j] in job.g.nodes
    requires match place
             case RunItself => due == job.g.nodes.Keys
             case IterationOf(l, _) => IsLoop(job.g, l) && forall n :: n in due <==> InRunBody(job.g, l, n)
    requires order[j] in t.view.states && t.view.states[order[j]].status == Pending
    requires IsControlPathActive(order[j], job.g, t.view.activated, t.view.deactivated)
    ensures Dispatchable(job, place, t.events, t.view, order[j])
  {
    AdmittedInTurn(job, order, j, place, due, depth, s, t);
    assert !OnUntakenBranch(job.g, t.events, t.view, order[j]);
  }

  /** At the end of the walk everything that was due is settled. */
  lemma WalkEnds(
    job: Job, order: seq<NodeId>, place: Place, due: set<NodeId>, depth: nat, s: Moment, t: Moment)
    requires Runnable(job.g, order) && Walking(job, order, |order|, place, due, depth, s, t)
    requires due <= job.g.nodes.Keys
    ensures Walked(job, place, depth, s, t)
    ensures forall n :: n in due ==> n in t.view.states && Settled(t.view.states[n].status)
    ensures due != {} ==> s.budget.iterationsUsed < s.budget.maxIterations
  {
    forall n | n in due ensures n in t.view.states && Settled(t.view.states[n].status) && t.events != [] {
      assert n in Elems(order);
      var k :| 0 <= k < |order| && order[k] == n;
      assert order[k] in due;
    }
  }
}
