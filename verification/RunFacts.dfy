/** What the soundness of traces means: for branches, for readiness inside loops, for the
    end of a run, and for the count of iterations. */
module RunFacts {
  import opened Common
  import opened Digraph
  import opened DataValues
  import opened PipelineGraph
  import opened GraphUtils
  import opened LoopHelpers
  import opened LoopBody
  import opened ExecutionBudget
  import opened Host
  import opened NodeResults
  import opened RunGraph
  import opened RunTrace
  import opened RunEnd

  // ----- branches -----

  lemma SoundAt(job: Job, place: Place, events: Trace, k: nat)
    requires TraceSound(job, place, events) && k < |events|
    ensures Dispatchable(job, place, events[..k], events[k].at, events[k].node) && EventRan(job, events[k])
  {
    assert EventSound(job, place, events[..k], events[k]);
  }

  ghost predicate Dispatched(events: Trace, n: NodeId) {
    exists k :: 0 <= k < |events| && events[k].node == n
  }

  /** A control edge of a conditional is decided exactly when the conditional has been
      dispatched in this state, and then as its verdict demands. */
  lemma EdgeStandsAsDecided(job: Job, place: Place, events: Trace, v: View, x: Edge)
    requires WellKeyed(job.g) && Tracks(job, place, events, v)
    requires x in job.g.edges && x.kind.Control?
    requires x.from in job.g.nodes && job.g.nodes[x.from].kind == Conditional
    ensures x.id in v.activated + v.deactivated <==> Dispatched(events, x.from)
    ensures forall k :: 0 <= k < |events| && events[k].node == x.from ==>
              (x.id in v.activated <==> Fires(x.condition, Verdict(job.world, events[k]))) &&
              (x.id in v.deactivated <==> !Fires(x.condition, Verdict(job.world, events[k])))
  {
    forall y | y in job.g.edges && y.id == x.id ensures y == x {
      SameIdSameEdge(job.g, x, y);
    }
    forall k, fires: bool | 0 <= k < |events|
      ensures Decides(job, events[k], x.id, fires) <==>
              events[k].node == x.from && Fires(x.condition, Verdict(job.world, events[k])) == fires
    {
    }
    assert x.id in v.activated <==> DecidedBy(job, events, x.id, true);
    assert x.id in v.deactivated <==> DecidedBy(job, events, x.id, false);
  }

  /** Nothing on a branch its conditional has not taken is dispatched after it. */
  lemma UntakenBranchNeverRuns(job: Job, place: Place, events: Trace, j: nat, k: nat, x: Edge)
    requires WellKeyed(job.g) && TraceSound(job, place, events) && j < k < |events|
    requires events[j].node in job.g.nodes && job.g.nodes[events[j].node].kind == Conditional
    requires x in job.g.edges && x.kind.Control? && x.from == events[j].node
    requires !Fires(x.condition, Verdict(job.world, events[j])) && x.to in PlainNodes(job.g)
    ensures !Reaches(PlainRel(job.g), x.to, events[k].node)
  {
    var before, at := events[..k], events[k].at;
    assert EventSound(job, place, before, events[k]);
    assert before[j] == events[j];
    EdgeStandsAsDecided(job, place, before, at, x);
    assert x.to in DeactivatedTargets(job.g, x.from, at.deactivated);
    if Reaches(PlainRel(job.g), x.to, events[k].node) {
      assert OnInactiveBranch(job.g, x.from, at.deactivated, events[k].node);
      assert Evaluated(job.g, before[j]);
    }
  }

  /** Edges of either kind. */
  ghost function AllRel(g: Graph): (r: Rel<NodeId>)
    ensures forall a, b :: (a, b) in r <==> exists e :: e in g.edges && e.from == a && e.to == b
  {
    set e | e in g.edges :: (e.from, e.to)
  }

  /** Every way from `t` to `n` passes a merge node. */
  ghost predicate BehindMerges(g: Graph, t: NodeId, n: NodeId) {
    forall p: seq<NodeId> :: PathFrom(AllRel(g), p, t, n) ==>
      exists i :: 0 <= i < |p| && p[i] !in PlainNodes(g)
  }

  lemma MergeFreeWay(g: Graph, t: NodeId, n: NodeId)
    requires t in PlainNodes(g) && Reaches(PlainRel(g), t, n)
    ensures !BehindMerges(g, t, n)
  {
    var p: seq<NodeId> :| PathFrom(PlainRel(g), p, t, n);
    forall i | 0 <= i < |p| ensures p[i] in PlainNodes(g) && (i > 0 ==> (p[i - 1], p[i]) in AllRel(g)) {
      assert i > 0 ==> (p[i - 1], p[i]) in PlainRel(g);
    }
    assert PathFrom(AllRel(g), p, t, n);
  }

  /** Where the branches of a conditional meet only behind merges, no node of the branch it
      took counts as on the branch it did not take. */
  lemma TakenBranchIsNotInactive(g: Graph, c: NodeId, deactivated: set<EdgeId>, n: NodeId)
    requires forall t :: t in DeactivatedTargets(g, c, deactivated) ==> BehindMerges(g, t, n)
    ensures !OnInactiveBranch(g, c, deactivated, n)
  {
    forall t ensures t in PlainNodes(g) && Reaches(PlainRel(g), t, n) ==> !BehindMerges(g, t, n) {
      if t in PlainNodes(g) && Reaches(PlainRel(g), t, n) {
        MergeFreeWay(g, t, n);
      }
    }
  }

  // ----- loop bodies -----

  /** A node that a returned loop has in its body is not dispatched where the loop ran. */
  lemma BodyNeverRunsAgain(job: Job, place: Place, events: Trace, j: nat, k: nat)
    requires TraceSound(job, place, events) && j < k < |events| && IsLoop(job.g, events[j].node)
    ensures events[k].node !in BodyOf(job.g, events[j].node)
  {
    var before := events[..k];
    assert EventSound(job, place, before, events[k]) && before[j] == events[j];
    if events[k].node in BodyOf(job.g, events[j].node) {
      assert Consumes(job.g, before[j], events[k].node);
      assert Consumed(job.g, before, events[k].node);
    }
  }

  /** Everything in a loop body is reached from the loop along data edges. */
  lemma BodyIsReached(g: Graph, l: NodeId, x: NodeId)
    requires ValidEndpoints(g) && x in BodyOf(g, l)
    ensures Reaches(DataRel(g), l, x)
  {
    var r := DataRel(g);
    var reached := set n | n in g.nodes && Reaches(r, l, n);
    RelInsideNodes(g);
    forall a, b | (a, b) in r && (a == l || a in reached) ensures b in reached {
      ReachesSelf(r, l);
      ReachesStep(r, l, a, b);
    }
    assert BodyClosed(r, l, reached);
  }

  /** Each control edge has a data edge beside it, as in compiled graphs. */
  ghost predicate ControlTwins(g: Graph) {
    forall x :: x in g.edges && x.kind.Control? ==> (x.from, x.to) in DataRel(g)
  }

  /** The loops an iteration of `l` runs keep to the body of `l`. */
  ghost predicate NestedBodies(g: Graph, l: NodeId) {
    forall m :: IsLoop(g, m) && InRunBody(g, l, m) ==> BodyOf(g, m) <= BodyOf(g, l)
  }

  lemma FollowsRunBody(g: Graph, l: NodeId, c: NodeId, x: NodeId)
    requires InRunBody(g, l, c) && Reaches(DataRel(g), c, x) && x in BodyOf(g, l)
    ensures InRunBody(g, l, x)
  {
    ReachesTrans(DataRel(g), FirstTarget(g, l).value, c, x);
  }

  lemma PlainFlowsAreData(g: Graph, t: NodeId, n: NodeId)
    requires ControlTwins(g) && Reaches(PlainRel(g), t, n)
    ensures Reaches(DataRel(g), t, n)
  {
    var p: seq<NodeId> :| PathFrom(PlainRel(g), p, t, n);
    forall i | 0 < i < |p| ensures (p[i - 1], p[i]) in DataRel(g) {
      assert (p[i - 1], p[i]) in PlainRel(g);
      var e :| e in g.edges && e.from == p[i - 1] && e.to == p[i];
      if e.kind.Data? {
        DataEdgeInRel(g, e);
      }
    }
    assert PathFrom(DataRel(g), p, t, n);
  }

  /** What a decided branch cuts off lies behind its conditional along data edges. */
  lemma CutOffLiesBehind(job: Job, events: Trace, v: View, a: NodeId) returns (k: nat)
    requires WellKeyed(job.g) && ControlTwins(job.g) && EdgesStand(job, events, v)
    requires !Permitted(job.g, events, v, a)
    ensures k < |events| && Reaches(DataRel(job.g), events[k].node, a)
  {
    var g := job.g;
    if OnUntakenBranch(g, events, v, a) {
      k :| 0 <= k < |events| && Evaluated(g, events[k]) && OnInactiveBranch(g, events[k].node, v.deactivated, a);
      var t :| t in DeactivatedTargets(g, events[k].node, v.deactivated) && Reaches(PlainRel(g), t, a);
      PlainFlowsAreData(g, t, a);
      ReachesFirst(DataRel(g), events[k].node, t, a);
    } else {
      var x :| x in g.edges && x.kind.Control? && x.to == a && x.id in v.deactivated;
      assert DecidedBy(job, events, x.id, false);
      k :| 0 <= k < |events| && Decides(job, events[k], x.id, false);
      var y :| y in g.edges && y.kind.Control? && y.from == events[k].node && y.id == x.id;
      SameIdSameEdge(g, x, y);
      ReachesSelf(DataRel(g), a);
      ReachesFirst(DataRel(g), x.from, a, a);
    }
  }

  lemma DispatchedInRunBody(job: Job, l: NodeId, item: DataValue, events: Trace, k: nat)
    requires TraceSound(job, IterationOf(l, item), events) && k < |events|
    ensures InRunBody(job.g, l, events[k].node)
  {
    assert EventSound(job, IterationOf(l, item), events[..k], events[k]);
  }

  /** Inside an iteration nothing but the loop and what the iteration runs is ever settled. */
  lemma OnlyRunBodySettles(job: Job, l: NodeId, item: DataValue, events: Trace, v: View, a: NodeId)
    requires WellKeyed(job.g) && ValidEndpoints(job.g) && ControlTwins(job.g) && NestedBodies(job.g, l)
    requires TraceSound(job, IterationOf(l, item), events) && Tracks(job, IterationOf(l, item), events, v)
    requires a in v.states && Settled(v.states[a].status) && a != l
    ensures InRunBody(job.g, l, a)
  {
    var g := job.g;
    assert Explained(g, IterationOf(l, item), events, v, a);
    if RanTo(events, a, v.states[a]) {
      var k :| 0 <= k < |events| && events[k].node == a && events[k].left == Some(v.states[a]);
      DispatchedInRunBody(job, l, item, events, k);
    } else if Consumed(g, events, a) {
      var k :| 0 <= k < |events| && Consumes(g, events[k], a);
      DispatchedInRunBody(job, l, item, events, k);
      BodyIsReached(g, events[k].node, a);
      FollowsRunBody(g, l, events[k].node, a);
    } else {
      var k := CutOffLiesBehind(job, events, v, a);
      DispatchedInRunBody(job, l, item, events, k);
      FollowsRunBody(g, l, events[k].node, a);
    }
  }

  /** When loops keep to the bodies they are nested in, a dispatch in an iteration finds its
      data predecessors settled if and only if they are the loop or what the iteration runs. */
  lemma ReadyJustWhenSelfFed(job: Job, l: NodeId, item: DataValue, before: Trace, e: Event)
    requires WellKeyed(job.g) && ValidEndpoints(job.g) && ControlTwins(job.g) && NestedBodies(job.g, l)
    requires TraceSound(job, IterationOf(l, item), before) && EventSound(job, IterationOf(l, item), before, e)
    ensures Ready(job.g, e.node, e.at.states) <==> SelfFed(job.g, l, e.node)
  {
    if Ready(job.g, e.node, e.at.states) {
      forall a | (a, e.node) in DataRel(job.g) && a != l ensures InRunBody(job.g, l, a) {
        OnlyRunBodySettles(job, l, item, before, e.at, a);
      }
    }
  }

  lemma TwoTargetBodies(g: Graph, l: NodeId, a: NodeId, b: NodeId, c: NodeId)
    requires ValidEndpoints(g) && NoDup([l, a, b, c]) && FirstTarget(g, l) == Some(a)
    requires DataRel(g) == {(l, a), (l, b), (a, c), (b, c)}
    ensures b in BodyOf(g, l) && InRunBody(g, l, c) && !InRunBody(g, l, b)
    ensures forall x :: InRunBody(g, l, x) ==> x == a || x == c
  {
    var r := DataRel(g);
    assert l == [l, a, b, c][0] && a == [l, a, b, c][1] && b == [l, a, b, c][2] && c == [l, a, b, c][3];
    RelInsideNodes(g);
    assert (l, a) in r && (l, b) in r && (a, c) in r && (b, c) in r;
    forall s: set<NodeId> | BodyClosed(r, l, s) ensures c in s {
      assert a in s && b in s && FedFrom(r, l, s, c);
    }
    ReachesSelf(r, a);
    ReachesStep(r, a, a, c);
    forall x | Reaches(r, a, x) ensures x == a || x == c {
      var p: seq<NodeId> :| PathFrom(r, p, a, x);
      ReachesStaysIn(r, {a, c}, p);
    }
  }

  /** Why: in a loop over a and b that both feed c, an iteration walks only what its first
      target a leads to.  It dispatches c while b is untouched, so c is not ready. */
  lemma TwoTargetsAreNotReady(
    job: Job, l: NodeId, a: NodeId, b: NodeId, c: NodeId, item: DataValue, before: Trace, e: Event)
    requires WellKeyed(job.g) && ValidEndpoints(job.g) && NoDup([l, a, b, c]) && FirstTarget(job.g, l) == Some(a)
    requires DataRel(job.g) == {(l, a), (l, b), (a, c), (b, c)} && forall x :: x in job.g.edges ==> x.kind.Data?
    requires !IsLoop(job.g, a) && !IsLoop(job.g, c)
    requires TraceSound(job, IterationOf(l, item), before) && EventSound(job, IterationOf(l, item), before, e)
    requires e.node == c
    ensures b in e.at.states && e.at.states[b] == IDLE
    ensures (b, c) in DataRel(job.g) && !Ready(job.g, c, e.at.states)
  {
    TwoTargetBodies(job.g, l, a, b, c);
    assert l == [l, a, b, c][0] && b == [l, a, b, c][2];
    assert NestedBodies(job.g, l);
    assert b in e.at.states && (b, c) in DataRel(job.g);
    if Settled(e.at.states[b].status) {
      OnlyRunBodySettles(job, l, item, before, e.at, b);
    }
  }

  // ----- the end of a run -----

  /** A node of a finished run that was dispatched came to what its dispatch left, and that
      is the outcome its kind calls for. */
  lemma DispatchedNodeEnds(job: Job, trace: Trace, end: View, r: ExecutionResult, k: nat)
    requires TraceSound(job, RunItself, trace) && FinishedRun(job, trace, end, r) && k < |trace|
    ensures trace[k].node in r.nodeStates && trace[k].left == Some(r.nodeStates[trace[k].node])
    ensures Outcome(job, trace[k]) && Ready(job.g, trace[k].node, trace[k].at.states)
  {
    assert trace[k].left.Some?;
    SoundAt(job, RunItself, trace, k);
  }

  /** A node of a finished run that was not dispatched is in the body of a loop that was, or
      was cut off by its control edges, or is on a branch not taken; and only those are. */
  lemma UndispatchedNodeEnds(job: Job, trace: Trace, end: View, r: ExecutionResult, n: NodeId)
    requires FinishedRun(job, trace, end, r) && n in job.g.nodes && !Dispatched(trace, n)
    ensures if Consumed(job.g, trace, n) then r.nodeStates[n] == CONSUMED
            else r.nodeStates[n] == PASSED_OVER && !Permitted(job.g, trace, end, n)
  {
    assert Explained(job.g, RunItself, trace, end, n);
  }

  /** A dispatch of `n` whose definition did not succeed on its inputs. */
  ghost predicate FailedAt(job: Job, e: Event, n: NodeId)
    requires n in job.g.nodes
  {
    e.node == n && !Succeeds(job.world, job.g.nodes[n], NodeInputs(n, job.g, e.at.states), e.tick)
  }

  lemma SkippedIsFailure(job: Job, e: Event)
    requires e.node in job.g.nodes && e.left.Some? && Outcome(job, e) && e.left.value.status == Skipped
    ensures job.g.nodes[e.node].policy == SkipPolicy && FailedAt(job, e, e.node)
  {
  }

  /** So a skipped node failed under the policy to skip, or was never tried. */
  lemma SkippedMeans(job: Job, trace: Trace, end: View, r: ExecutionResult, n: NodeId)
    requires TraceSound(job, RunItself, trace) && FinishedRun(job, trace, end, r)
    requires n in job.g.nodes && r.nodeStates[n].status == Skipped
    ensures || (!Dispatched(trace, n) && !Permitted(job.g, trace, end, n))
            || (job.g.nodes[n].policy == SkipPolicy && exists k :: 0 <= k < |trace| && FailedAt(job, trace[k], n))
  {
    if Dispatched(trace, n) {
      var k :| 0 <= k < |trace| && trace[k].node == n;
      DispatchedNodeEnds(job, trace, end, r, k);
      SkippedIsFailure(job, trace[k]);
    } else {
      UndispatchedNodeEnds(job, trace, end, r, n);
    }
  }

  // ----- counting -----

  lemma {:induction false} EventIsCounted(events: Trace, k: nat)
    requires k < |events|
    ensures IterationsIn(events) >= IterationsOf(events[k].iterations)
  {
    if k < |events| - 1 {
      EventIsCounted(events[..|events| - 1], k);
    }
  }

  /** A loop inside a loop, one item each: a run that returns has made two iterations,
      although the budget allows one. */
  lemma NestedLoopsPassTheCap(
    job: Job, order: seq<NodeId>, trace: Trace, end: View, r: ExecutionResult, b0: Budget, b1: Budget,
    outer: NodeId, inner: NodeId)
    requires SafeRun(job, order, trace, b0, b1) && FinishedRun(job, trace, end, r)
    requires b0.maxIterations == 1 == job.maxIterations && b0.iterationsUsed == 0
    requires WellKeyed(job.g) && ValidEndpoints(job.g) && forall x :: x in job.g.edges ==> x.kind.Data?
    requires OneItemLoop(job.g, outer) && OneItemLoop(job.g, inner) && InRunBody(job.g, outer, inner)
    requires forall m :: IsLoop(job.g, m) ==> m == outer || m == inner
    requires forall t :: job.world.iterable(t).Returns? && |ToIterable(job.world.iterable(t).value)| == 1
    ensures b1.iterationsUsed >= 2 > b1.maxIterations
  {
    NoBodyHoldsItsLoop(job.g, order, outer, inner);
    var k := SettledByDispatch(job, RunItself, trace, end, outer);
    var it := OneIteration(job, RunItself, trace, k);
    var j := SettledByDispatch(job, IterationOf(outer, it.item), it.events, it.view, inner);
    var inside := OneIteration(job, IterationOf(outer, it.item), it.events, j);
    EventIsCounted(it.events, j);
    EventIsCounted(trace, k);
  }

  lemma NoBodyHoldsItsLoop(g: Graph, order: seq<NodeId>, outer: NodeId, inner: NodeId)
    requires ValidEndpoints(g) && IsTopologicalOrder(g, order) && outer in g.nodes && inner in BodyOf(g, outer)
    ensures outer !in BodyOf(g, outer) && outer !in BodyOf(g, inner) && inner !in BodyOf(g, inner)
  {
    assert outer in Elems(order);
    var i :| 0 <= i < |order| && order[i] == outer;
    BodyComesLater(g, order, i);
    var j :| i < j < |order| && order[j] == inner;
    BodyComesLater(g, order, j);
  }

  /** A loop over one item that returned has made one iteration. */
  lemma OneIteration(job: Job, place: Place, events: Trace, k: nat) returns (it: Iteration)
    requires TraceSound(job, place, events) && k < |events| && events[k].left.Some?
    requires OneItemLoop(job.g, events[k].node) && job.maxIterations >= 1
    requires forall t :: job.world.iterable(t).Returns? && |ToIterable(job.world.iterable(t).value)| == 1
    ensures events[k].iterations == [it] && IterationsOf(events[k].iterations) == IterationsIn(it.events) + 1
    ensures TraceSound(job, IterationOf(events[k].node, it.item), it.events)
    ensures IterationMade(job, events[k].node, it.item, it.events, it.view)
  {
    var e := events[k];
    SoundAt(job, place, events, k);
    assert LoopOutcome(job, e.node, e.tick, e.body, e.iterations, e.left.value);
    it := e.iterations[0];
    assert Finished(job, e.node, it);
    assert e.iterations[..0] == [];
  }

  ghost predicate OneItemLoop(g: Graph, l: NodeId) {
    IsLoop(g, l) && g.nodes[l].loop.mode == ForEach && g.nodes[l].loop.maxIterations >= 1
  }

  lemma NoBranchWithoutControl(g: Graph, c: NodeId, deactivated: set<EdgeId>, n: NodeId)
    requires forall x :: x in g.edges ==> x.kind.Data?
    ensures !OnInactiveBranch(g, c, deactivated, n)
  {
    assert DeactivatedTargets(g, c, deactivated) == {};
  }

  /** Without control edges, a settled node outside every loop body that ran here was
      dispatched here. */
  lemma SettledByDispatch(job: Job, place: Place, events: Trace, v: View, n: NodeId) returns (k: nat)
    requires Tracks(job, place, events, v) && TraceSound(job, place, events)
    requires forall x :: x in job.g.edges ==> x.kind.Data?
    requires n in v.states && Settled(v.states[n].status) && (place.IterationOf? ==> n != place.loop)
    requires !Consumed(job.g, events, n)
    ensures k < |events| && events[k].node == n && events[k].left.Some?
  {
    assert Explained(job.g, place, events, v, n);
    forall i | 0 <= i < |events| ensures !OnInactiveBranch(job.g, events[i].node, v.deactivated, n) {
      NoBranchWithoutControl(job.g, events[i].node, v.deactivated, n);
    }
    k :| 0 <= k < |events| && events[k].node == n && events[k].left == Some(v.states[n]);
  }
}
