/** Between the scheduler's methods and its trace: what one kind of node makes of a
    dispatch, what a fork starts from, and what a run ends with. */
module RunEnd {
  import opened Common
  import opened Digraph
  import opened DataValues
  import opened PipelineGraph
  import opened GraphUtils
  import opened LoopHelpers
  import opened LoopBody
  import opened ExecutionBudget
  import opened Host
  import opened NodeResults
  import opened RunGraph
  import opened RunTrace
  import opened TraceSteps
  import opened LoopCourse
  import opened Walk

  // ----- one node -----

  /** The attempts made from `t` to `u` decide whether the definition succeeds. */
  lemma AttemptsDecide(w: World, node: Node, inputs: Inputs, t: nat, u: nat, answer: Answer<DataValue>)
    requires t <= u <= t + Max(0, node.maxRetries + 1)
    requires answer.Returns? ==>
               && t < u && w.execute(u - 1, inputs) == answer
               && forall v :: t <= v < u - 1 ==> w.execute(v, inputs).Throws?
    requires answer.Throws? ==>
               && u == t + Max(0, node.maxRetries + 1)
               && forall v :: t <= v < u ==> w.execute(v, inputs).Throws?
    ensures Succeeds(w, node, inputs, t) <==> answer.Returns? && !w.timesOut(u)
    ensures Succeeds(w, node, inputs, t) ==> SucceedsAt(w, node, inputs, t, u - 1)
  {
    forall x: nat | SucceedsAt(w, node, inputs, t, x) ensures answer.Returns? && x == u - 1 {
    }
    if answer.Returns? && !w.timesOut(u) {
      assert SucceedsAt(w, node, inputs, t, u - 1);
    }
  }

  /** The ids of the edges that fire, or of those that do not. */
  function BranchIds(edges: seq<Edge>, result: bool, fires: bool): set<EdgeId> {
    set e | e in edges && Fires(e.condition, result) == fires :: e.id
  }

  lemma BranchIdsSnoc(edges: seq<Edge>, k: nat, result: bool)
    requires k < |edges|
    ensures var fires := Fires(edges[k].condition, result);
      && BranchIds(edges[..k + 1], result, fires) == BranchIds(edges[..k], result, fires) + {edges[k].id}
      && BranchIds(edges[..k + 1], result, !fires) == BranchIds(edges[..k], result, !fires)
  {
    assert edges[..k + 1] == edges[..k] + [edges[k]];
  }

  lemma BranchIdsAreEdges(g: Graph, c: NodeId, result: bool)
    ensures forall id, fires: bool :: id in BranchIds(OutgoingControl(g, c), result, fires) <==>
                                      BranchEdge(g, c, id, result, fires)
  {
  }

  // ----- what a kind of node makes of a dispatch -----

  /** The dispatch of an untouched node in a calm state. */
  ghost predicate Starts(job: Job, e: Event) {
    e.node in job.g.nodes && e.node in e.at.states && e.at.states[e.node] == IDLE && Calm(e.at.states) && e.tick <= e.done
  }

  lemma PlainRan(job: Job, e: Event, v: View)
    requires Starts(job, e)
    requires job.g.nodes[e.node].kind != Conditional && job.g.nodes[e.node].kind != Loop && e.iterations == []
    requires e.left.Some? ==>
               && v == e.at.(states := e.at.states[e.node := e.left.value])
               && PlainOutcome(job.world, job.g, e.node, e.at.states, e.tick, e.left.value)
    ensures EventRan(job, e)
    ensures e.left.Some? ==> Moved(job, e, v)
  {
  }

  lemma ConditionalRan(job: Job, e: Event, v: View)
    requires Starts(job, e)
    requires job.g.nodes[e.node].kind == Conditional && e.iterations == []
    requires e.left.Some? ==>
               && v.states.Keys == e.at.states.Keys && v.states[e.node] == e.left.value
               && ConditionalOutcome(job.world, job.g, e.node, e.at.states, e.tick, e.left.value)
               && EdgesDecided(job.g, e, Verdict(job.world, e), v)
               && forall m :: m in v.states && m != e.node ==>
                    v.states[m] ==
                    if e.at.states[m].status == Pending && OnInactiveBranch(job.g, e.node, v.deactivated, m)
                    then e.at.states[m].(status := Skipped) else e.at.states[m]
    ensures EventRan(job, e)
    ensures e.left.Some? ==> Moved(job, e, v)
  {
  }

  /** The control edges of the event's node are decided by the verdict. */
  ghost predicate EdgesDecided(g: Graph, e: Event, verdict: bool, v: View) {
    && (forall id :: id in v.activated <==> id in e.at.activated || BranchEdge(g, e.node, id, verdict, true))
    && (forall id :: id in v.deactivated <==> id in e.at.deactivated || BranchEdge(g, e.node, id, verdict, false))
  }

  /** The body is marked, the loop has come to what the event says, and no edge is decided. */
  ghost predicate BodyMarked(g: Graph, e: Event, v: View)
    requires e.left.Some?
  {
    && v.activated == e.at.activated && v.deactivated == e.at.deactivated
    && v.states.Keys == e.at.states.Keys + BodyOf(g, e.node)
    && e.node in v.states && v.states[e.node] == e.left.value
    && forall n :: n in v.states && n != e.node ==>
         v.states[n] == if n in BodyOf(g, e.node) then CONSUMED else e.at.states[n]
  }

  lemma LoopRan(job: Job, e: Event, b0: Budget, b1: Budget, depth: nat)
    requires Starts(job, e) && IsLoop(job.g, e.node)
    requires Iterated(job, e.at, e.node, e.tick, e.iterations, b0, b1, depth)
    requires e.left.Some? ==> LoopOutcome(job, e.node, e.tick, e.body, e.iterations, e.left.value)
    ensures EventRan(job, e)
  {
  }

  lemma LoopThrows(job: Job, e: Event)
    requires IsLoop(job.g, e.node) && e.left.None?
    requires || LastThrew(job, e.node, e.iterations, e.done) || ConditionThrew(job, e.node, e.tick, e.iterations)
             || (job.g.nodes[e.node].loop.mode == ForEach && job.world.iterable(e.tick).Throws?)
             || FirstTarget(job.g, e.node).None?
    ensures Threw(job, e)
  {
  }

  lemma LoopMoved(job: Job, e: Event, v: View)
    requires IsLoop(job.g, e.node) && e.left.Some? && e.left.value.status == Completed
    requires e.node in e.at.states && BodyMarked(job.g, e, v)
    ensures Moved(job, e, v)
  {
  }

  // ----- forked states -----

  /** The walk over a fork, as the unfinished iteration it makes. */
  lemma WalkIsBody(job: Job, l: NodeId, half: Iteration, depth: nat, s: Moment, t: Moment, ok: bool)
    requires IsLoop(job.g, l) && Walked(job, IterationOf(l, half.item), depth, s, t) && s.events == []
    requires half.events == t.events && half.view == t.view && half.started == s.tick && half.ended.None?
    requires ok ==> IterationMade(job, l, half.item, t.events, t.view) && s.budget.iterationsUsed < s.budget.maxIterations
    ensures BodyRan(job, l, half, s.budget, t.budget, depth, t.tick, ok)
  {
  }

  /** The states of a fresh iteration: the body pending, the loop completed with the item. */
  function ForkStates(body: seq<NodeId>, l: NodeId, item: DataValue): NodeStates {
    (map n | n in body :: IDLE)[l := ItemState(item)]
  }

  ghost predicate Forked(g: Graph, l: NodeId, item: DataValue, v: View) {
    && v.activated == {} && v.deactivated == {}
    && v.states.Keys == BodyOf(g, l) + {l} && v.states.Keys <= g.nodes.Keys
    && (forall n :: n in v.states ==> v.states[n] == if n == l then ItemState(item) else IDLE)
  }

  lemma ForkIsForked(g: Graph, order: seq<NodeId>, i: nat, body: seq<NodeId>, start: NodeId, item: DataValue)
    requires Runnable(g, order) && i < |order| && Elems(body) == BodyOf(g, order[i])
    requires FirstTarget(g, order[i]) == Some(start)
    ensures Forked(g, order[i], item, View(ForkStates(body, order[i], item), {}, {}))
    ensures start in g.nodes
  {
    assert order[i] in Elems(order);
    assert OutgoingData(g, order[i])[0] in OutgoingData(g, order[i]);
    assert forall n :: n in body <==> n in Elems(body);
  }

  lemma ForkTracks(job: Job, l: NodeId, item: DataValue, v: View)
    requires Forked(job.g, l, item, v)
    ensures Tracks(job, IterationOf(l, item), [], v)
  {
    FreshTracks(job, IterationOf(l, item), v);
  }

  /** What an iteration walks is the part of the body it runs, and that is not empty. */
  lemma WalkIsRunBody(
    g: Graph, order: seq<NodeId>, i: nat, item: DataValue, start: NodeId, v: View, walk: set<NodeId>)
    requires Runnable(g, order) && i < |order| && FirstTarget(g, order[i]) == Some(start)
    requires Forked(g, order[i], item, v)
    requires forall n :: n in walk <==> Reaches(DataRel(g), start, n) && n in v.states && v.states[n].status == Pending
    ensures forall n :: n in walk <==> InRunBody(g, order[i], n)
    ensures start in walk && walk <= g.nodes.Keys
  {
    assert order[..i + 1][i] == order[i];
    NotInOwnBody(g, order, i, order[i]);
    var e := OutgoingData(g, order[i])[0];
    assert e in OutgoingData(g, order[i]);
    TargetIsInBody(g, order[i], e);
    ReachesSelf(DataRel(g), start);
  }

  /** A body node comes after its loop and nests less deeply. */
  lemma BodyNodeInTurn(g: Graph, order: seq<NodeId>, i: nat, j: nat)
    requires Runnable(g, order) && i < |order| && j < |order| && IsLoop(g, order[i])
    requires InRunBody(g, order[i], order[j])
    ensures i < j && Depth(g, order, j) <= Depth(g, order, i) - 1
    ensures order[i] in order[..j] && order[j] in g.nodes
  {
    BodyComesLater(g, order, i);
    assert After(order, i, order[j]);
    DeepestInBounds(g, order, BodyOf(g, order[i]), i, i + 1, j);
    assert order[..j][i] == order[i];
  }

  /** A due node that is not pending is settled, and something has been dispatched. */
  lemma BodyIsThere(
    job: Job, order: seq<NodeId>, i: nat, item: DataValue, j: nat, walk: set<NodeId>, depth: nat, s: Moment, t: Moment)
    requires i < |order| && j < |order| && Walking(job, order, j, IterationOf(order[i], item), walk, depth, s, t)
    requires InRunBody(job.g, order[i], order[j]) && order[j] != order[i]
    requires order[j] !in t.view.states || t.view.states[order[j]].status != Pending
    ensures order[j] in t.view.states && Settled(t.view.states[order[j]].status) && t.events != []
  {
    var n := order[j];
    assert n in t.view.states;
    assert Explained(job.g, IterationOf(order[i], item), t.events, t.view, n);
    if t.events == [] {
      NothingDecidedYet(job, IterationOf(order[i], item), t.view, n);
    }
  }

  lemma WalkPassesBody(
    job: Job, order: seq<NodeId>, i: nat, item: DataValue, j: nat, walk: set<NodeId>, depth: nat, s: Moment, t: Moment)
    requires i < |order| && j < |order| && Walking(job, order, j, IterationOf(order[i], item), walk, depth, s, t)
    requires InRunBody(job.g, order[i], order[j]) && order[j] != order[i]
    requires order[j] !in t.view.states || t.view.states[order[j]].status != Pending
    ensures Walking(job, order, j + 1, IterationOf(order[i], item), walk, depth, s, t)
  {
    BodyIsThere(job, order, i, item, j, walk, depth, s, t);
    WalkPasses(job, order, j, IterationOf(order[i], item), walk, depth, s, t);
  }

  // ----- whole runs -----

  datatype RunStatus = Success | Partial | FailedRun

  datatype ExecutionResult = ExecutionResult(status: RunStatus, nodeStates: NodeStates)

  function StatusOf(states: NodeStates): RunStatus {
    var failed := set n | n in states && states[n].status == Failed;
    if failed == {} then Success else if |failed| < |states| then Partial else FailedRun
  }

  /** Every node pending. */
  function FreshStates(g: Graph): NodeStates {
    map n | n in g.nodes :: IDLE
  }

  /** What holds of a run at any moment, and so of one that threw: every dispatch in its
      trace, and inside the iterations of its loops, is sound; the counter of iterations
      counts exactly the finished ones; LLM calls are within their cap, and iterations
      exceed theirs by less than the nesting depth. */
  ghost predicate SafeRun(job: Job, order: seq<NodeId>, trace: Trace, b0: Budget, b1: Budget) {
    && IsTopologicalOrder(job.g, order)
    && TraceSound(job, RunItself, trace)
    && Spent(b0, b1, NestingDepth(job.g, order, 0))
    && b1.iterationsUsed == b0.iterationsUsed + IterationsIn(trace)
  }

  /** What a run that returned ends with: each node completed or skipped, for a reason the
      trace gives, and the status success. */
  ghost predicate FinishedRun(job: Job, trace: Trace, end: View, r: ExecutionResult) {
    && r.nodeStates == end.states && r.status == Success
    && Tracks(job, RunItself, trace, end)
    && (forall n :: n in job.g.nodes ==> n in end.states && Settled(end.states[n].status))
  }

  lemma ListedIsNode(g: Graph, order: seq<NodeId>, k: nat)
    requires IsTopologicalOrder(g, order) && k < |order|
    ensures order[k] in g.nodes
  {
    assert order[k] in Elems(order);
  }

  lemma SettledMeansStarted(job: Job, order: seq<NodeId>, k: nat, depth: nat, s: Moment, t: Moment)
    requires k < |order| && Walking(job, order, k, RunItself, job.g.nodes.Keys, depth, s, t)
    requires order[k] in t.view.states && Settled(t.view.states[order[k]].status)
    ensures t.events != []
  {
    if t.events == [] {
      assert Explained(job.g, RunItself, t.events, t.view, order[k]);
      NothingDecidedYet(job, RunItself, t.view, order[k]);
    }
  }

  lemma RunFinishes(job: Job, order: seq<NodeId>, s: Moment, t: Moment)
    requires IsTopologicalOrder(job.g, order) && s.events == []
    requires Walking(job, order, |order|, RunItself, job.g.nodes.Keys, NestingDepth(job.g, order, 0), s, t)
    requires forall n :: n in job.g.nodes ==> n in t.view.states && Settled(t.view.states[n].status)
    ensures SafeRun(job, order, t.events, s.budget, t.budget)
    ensures FinishedRun(job, t.events, t.view, ExecutionResult(StatusOf(t.view.states), t.view.states))
  {
    assert t.view.states.Keys == job.g.nodes.Keys;
  }
}
