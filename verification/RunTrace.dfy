/** The vocabulary of whole-run statements: the trace of an execution state, what must hold
    of it at every dispatch, and why each of its nodes is settled. */
module RunTrace {
  import opened Common
  import opened Digraph
  import opened DataValues
  import opened PipelineGraph
  import opened GraphUtils
  import opened LoopHelpers
  import opened LoopBody
  import opened ExecutionBudget
  import opened Host
  import opened NodeResults
  import opened RunGraph

  /** An execution state at one moment. */
  datatype View = View(states: NodeStates, activated: set<EdgeId>, deactivated: set<EdgeId>)

  /** One dispatch in an execution state: what it found, the number of its first
      consultation, for a loop its body and the iterations made, and the state it left its
      node in, or none if it threw. */
  datatype Event = Event(
    at: View, node: NodeId, tick: nat, body: seq<NodeId>, iterations: seq<Iteration>,
    left: Option<NodeState>, done: nat)

  /** One iteration of a loop: its own execution state, from fork to end; `ended` is none if
      it threw, and `reduced` is what a reducer expression gave for its result. */
  datatype Iteration = Iteration(
    item: DataValue, started: nat, events: Trace, view: View, ended: Option<nat>, reduced: Value)

  /** The dispatches of one execution state, in order. */
  type Trace = seq<Event>

  /** Whose execution state it is. */
  datatype Place = RunItself | IterationOf(loop: NodeId, item: DataValue)

  datatype Job = Job(g: Graph, world: World, maxIterations: int)

  /** The state of the loop node inside an iteration over `item`. */
  function ItemState(item: DataValue): NodeState {
    NodeState(Completed, Some(LoopOutput(item)), 0)
  }

  // ----- branches -----

  /** A conditional that was evaluated. */
  ghost predicate Evaluated(g: Graph, e: Event) {
    e.node in g.nodes && g.nodes[e.node].kind == Conditional && e.left.Some?
  }

  /** The value of its predicate. */
  function Verdict(w: World, e: Event): bool {
    var answer := w.evaluate(e.tick);
    answer.Returns? && answer.value.Bool? && answer.value.b
  }

  /** A control edge of `c` that fires for this verdict, or that does not, has this id. */
  ghost predicate BranchEdge(g: Graph, c: NodeId, id: EdgeId, verdict: bool, fires: bool) {
    exists x :: x in g.edges && x.kind.Control? && x.from == c && x.id == id && Fires(x.condition, verdict) == fires
  }

  ghost predicate Decides(job: Job, e: Event, id: EdgeId, fires: bool) {
    Evaluated(job.g, e) && BranchEdge(job.g, e.node, id, Verdict(job.world, e), fires)
  }

  ghost predicate DecidedBy(job: Job, events: Trace, id: EdgeId, fires: bool) {
    exists k :: 0 <= k < |events| && Decides(job, events[k], id, fires)
  }

  /** Activated are exactly the firing control edges of the conditionals evaluated in this
      state so far, and deactivated exactly their other ones. */
  ghost predicate EdgesStand(job: Job, events: Trace, v: View) {
    && (forall id :: id in v.activated <==> DecidedBy(job, events, id, true))
    && (forall id :: id in v.deactivated <==> DecidedBy(job, events, id, false))
  }

  /** On a branch that a conditional evaluated in this state did not take. */
  ghost predicate OnUntakenBranch(g: Graph, events: Trace, v: View, n: NodeId) {
    exists k :: 0 <= k < |events| && Evaluated(g, events[k]) && OnInactiveBranch(g, events[k].node, v.deactivated, n)
  }

  /** Neither cut off by its control edges nor on an untaken branch. */
  ghost predicate Permitted(g: Graph, events: Trace, v: View, n: NodeId) {
    IsControlPathActive(n, g, v.activated, v.deactivated) && !OnUntakenBranch(g, events, v, n)
  }

  // ----- why a node is settled -----

  /** A loop that returned and has `n` in its body. */
  ghost predicate Consumes(g: Graph, e: Event, n: NodeId) {
    IsLoop(g, e.node) && e.left.Some? && n in BodyOf(g, e.node)
  }

  ghost predicate Consumed(g: Graph, events: Trace, n: NodeId) {
    exists k :: 0 <= k < |events| && Consumes(g, events[k], n)
  }

  ghost predicate RanTo(events: Trace, n: NodeId, st: NodeState) {
    exists k :: 0 <= k < |events| && events[k].node == n && events[k].left == Some(st)
  }

  /** The node is settled because it is the loop this state is an iteration of, was
      dispatched here, was marked by a loop that returned here, or was skipped, with no
      output, off the path the conditionals evaluated here have left open. */
  ghost predicate Explained(g: Graph, place: Place, events: Trace, v: View, n: NodeId)
    requires n in v.states
  {
    || (place.IterationOf? && n == place.loop && v.states[n] == ItemState(place.item))
    || RanTo(events, n, v.states[n])
    || (v.states[n] == CONSUMED && Consumed(g, events, n))
    || (v.states[n] == PASSED_OVER && !Permitted(g, events, v, n))
  }

  ghost predicate Accounted(g: Graph, place: Place, events: Trace, v: View) {
    forall n {:trigger Explained(g, place, events, v, n)} ::
      n in v.states && Settled(v.states[n].status) ==> Explained(g, place, events, v, n)
  }

  // ----- the invariant of an execution state -----

  /** Between dispatches each node is untouched, completed or skipped. */
  ghost predicate Calm(states: NodeStates) {
    forall n :: n in states ==> states[n] == IDLE || Settled(states[n].status)
  }

  /** A run's own state has every node; an iteration's has the loop with its item, the loop
      body, and what loops inside it have marked besides. */
  ghost predicate AtHome(g: Graph, place: Place, events: Trace, v: View) {
    && v.states.Keys <= g.nodes.Keys
    && match place
       case RunItself => v.states.Keys == g.nodes.Keys
       case IterationOf(l, item) =>
         && l in v.states && v.states[l] == ItemState(item) && BodyOf(g, l) <= v.states.Keys
         && forall n :: n in v.states && n != l && n !in BodyOf(g, l) ==> Consumed(g, events, n)
  }

  /** What each dispatched node came to is still there. */
  ghost predicate Kept(events: Trace, v: View) {
    forall k :: 0 <= k < |events| ==>
      events[k].left.Some? && events[k].node in v.states &&
      v.states[events[k].node] == events[k].left.value && Settled(events[k].left.value.status)
  }

  /** What a returned loop has marked stays marked. */
  ghost predicate Marked(g: Graph, events: Trace, v: View) {
    forall n {:trigger Consumed(g, events, n)} :: Consumed(g, events, n) ==> n in v.states && v.states[n] == CONSUMED
  }

  /** No node is dispatched twice in the same execution state. */
  ghost predicate OnceEach(events: Trace) {
    forall i, j :: 0 <= i < j < |events| ==> events[i].node != events[j].node
  }

  /** Nothing on an untaken branch is pending. */
  ghost predicate BranchesClosed(g: Graph, events: Trace, v: View) {
    forall n {:trigger OnUntakenBranch(g, events, v, n)} ::
      n in v.states && OnUntakenBranch(g, events, v, n) ==> v.states[n].status != Pending
  }

  /** What holds of an execution state between dispatches. */
  ghost predicate Tracks(job: Job, place: Place, events: Trace, v: View) {
    && AtHome(job.g, place, events, v)
    && Calm(v.states)
    && Kept(events, v) && Marked(job.g, events, v) && OnceEach(events)
    && EdgesStand(job, events, v)
    && Accounted(job.g, place, events, v)
    && BranchesClosed(job.g, events, v)
  }

  // ----- the soundness of a trace -----

  /** A node of an iteration is one the iteration runs.  Dispatched, a node finds its data
      predecessors settled, inside an iteration provided it is self-fed. */
  ghost predicate Admitted(g: Graph, place: Place, n: NodeId, states: NodeStates) {
    match place
    case RunItself => Ready(g, n, states)
    case IterationOf(l, _) => IsLoop(g, l) && InRunBody(g, l, n) && (SelfFed(g, l, n) ==> Ready(g, n, states))
  }

  /** What a dispatch of `n` finds. */
  ghost predicate Dispatchable(job: Job, place: Place, events: Trace, v: View, n: NodeId) {
    && Tracks(job, place, events, v)
    && n in job.g.nodes && n in v.states && v.states[n].status == Pending
    && Permitted(job.g, events, v, n)
    && Admitted(job.g, place, n, v.states)
  }

  /** The consultations of the dispatches come one after the other. */
  ghost predicate Timed(events: Trace, from: nat, to: nat) {
    && from <= to
    && (forall k :: 0 <= k < |events| ==> from <= events[k].tick <= events[k].done <= to)
    && (forall j, k :: 0 <= j < k < |events| ==> events[j].done <= events[k].tick)
  }

  /** A finished iteration over `item`: everything it runs is settled, and so accounted for. */
  ghost predicate IterationMade(job: Job, l: NodeId, item: DataValue, events: Trace, v: View) {
    && Tracks(job, IterationOf(l, item), events, v)
    && forall x :: InRunBody(job.g, l, x) ==> x in v.states && Settled(v.states[x].status)
  }

  /** Where the loop stands after `k` iterations. */
  function TickAfter(mode: LoopMode, tick: nat, its: seq<Iteration>, k: nat): nat
    requires k <= |its|
  {
    if k == 0 then (if mode == ForEach then tick + 1 else tick)
    else (if its[k - 1].ended.Some? then its[k - 1].ended.value else 0)
  }

  /** Iteration `k` is due: a forEach loop has an item for it, in order; the condition of a
      while loop holds, and it works on the loop's input. */
  ghost predicate Due(job: Job, at: View, l: NodeId, tick: nat, its: seq<Iteration>, k: nat)
    requires IsLoop(job.g, l) && k < |its|
  {
    var node := job.g.nodes[l];
    var now := TickAfter(node.loop.mode, tick, its, k);
    && k < LoopCap(node, job.maxIterations)
    && match node.loop.mode
       case ForEach =>
         && job.world.iterable(tick).Returns?
         && k < |ToIterable(job.world.iterable(tick).value)|
         && its[k].item == ToIterable(job.world.iterable(tick).value)[k]
         && its[k].started == now
       case While =>
         && job.world.evaluate(now) == Returns(Bool(true))
         && its[k].item == WhileInput(NodeInputs(l, job.g, at.states))
         && its[k].started == now + 1
  }

  ghost predicate Finished(job: Job, l: NodeId, it: Iteration)
    requires IsLoop(job.g, l) && it.ended.Some?
  {
    && IterationMade(job, l, it.item, it.events, it.view)
    && Timed(it.events, it.started, it.ended.value)
    && (job.g.nodes[l].loop.accumulator.Reduce? ==>
          it.started < it.ended.value && job.world.evaluate(it.ended.value - 1) == Returns(it.reduced))
  }

  /** The iterations a loop has made so far: each was due, and all but perhaps the last
      are finished. */
  ghost predicate Course(job: Job, at: View, l: NodeId, tick: nat, its: seq<Iteration>)
    requires IsLoop(job.g, l)
  {
    && (forall k {:trigger Due(job, at, l, tick, its, k)} :: 0 <= k < |its| ==> Due(job, at, l, tick, its, k))
    && (forall k :: 0 <= k < |its| - 1 ==> its[k].ended.Some?)
    && (forall k :: 0 <= k < |its| && its[k].ended.Some? ==> Finished(job, l, its[k]))
  }

  ghost function Turns(g: Graph, body: seq<NodeId>, its: seq<Iteration>): seq<Turn> {
    seq(|its|, k requires 0 <= k < |its| => (SubgraphOutput(body, g, its[k].view.states), its[k].reduced))
  }

  /** A loop that returns has made an iteration for each item, or until its condition was
      false, or up to its cap; and its output accumulates their results. */
  ghost predicate LoopOutcome(
    job: Job, l: NodeId, tick: nat, body: seq<NodeId>, its: seq<Iteration>, st: NodeState)
    requires IsLoop(job.g, l)
  {
    var node := job.g.nodes[l];
    var cap := LoopCap(node, job.maxIterations);
    && NoDup(body) && Elems(body) == BodyOf(job.g, l) && FirstTarget(job.g, l).Some?
    && (forall k :: 0 <= k < |its| ==> its[k].ended.Some?)
    && (match node.loop.mode
        case ForEach =>
          && job.world.iterable(tick).Returns?
          && |its| == Min(|ToIterable(job.world.iterable(tick).value)|, cap)
        case While =>
          |its| == cap || job.world.evaluate(TickAfter(While, tick, its, |its|)) == Returns(Bool(false)))
    && st == NodeState(Completed, Some(Accumulated(node.loop.accumulator, Turns(job.g, body, its))), 0)
  }

  /** What a dispatch that returned left, by the kind of its node. */
  ghost predicate Outcome(job: Job, e: Event)
    requires e.node in job.g.nodes && e.left.Some?
  {
    if job.g.nodes[e.node].kind == Conditional
    then ConditionalOutcome(job.world, job.g, e.node, e.at.states, e.tick, e.left.value)
    else if job.g.nodes[e.node].kind == Loop
    then LoopOutcome(job, e.node, e.tick, e.body, e.iterations, e.left.value)
    else PlainOutcome(job.world, job.g, e.node, e.at.states, e.tick, e.left.value)
  }

  /** What a dispatch makes of what it found, with everything inside it. */
  ghost predicate EventRan(job: Job, e: Event)
    requires e.node in job.g.nodes
    decreases e, 0
  {
    && e.tick <= e.done
    && (e.left.Some? ==> Outcome(job, e))
    && (if IsLoop(job.g, e.node) then Course(job, e.at, e.node, e.tick, e.iterations) else e.iterations == [])
    && forall i {:trigger e.iterations[i]} :: 0 <= i < |e.iterations| ==>
         TraceSound(job, IterationOf(e.node, e.iterations[i].item), e.iterations[i].events)
  }

  /** A sound dispatch: what it found, and what it made of that. */
  ghost predicate EventSound(job: Job, place: Place, before: Trace, e: Event)
    decreases e, 1
  {
    Dispatchable(job, place, before, e.at, e.node) && EventRan(job, e)
  }

  /** Every dispatch is sound given the ones before it. */
  ghost predicate TraceSound(job: Job, place: Place, events: Trace)
    decreases events
  {
    forall k {:trigger events[k]} :: 0 <= k < |events| ==> EventSound(job, place, events[..k], events[k])
  }

  // ----- why a trace stops -----

  predicate NoBoolean(answer: Answer<Value>) {
    answer.Throws? || !answer.value.Bool?
  }

  /** The dispatch threw, and why: by its kind, or because of what threw inside a loop. */
  ghost predicate Threw(job: Job, e: Event)
    decreases e, 1
  {
    && e.node in job.g.nodes && e.left.None?
    && (if job.g.nodes[e.node].kind == Conditional then NoBoolean(job.world.evaluate(e.tick))
        else if job.g.nodes[e.node].kind == Loop then LoopThrew(job, e)
        else PlainThrows(job.world, job.g, e.node, e.at.states, e.tick))
  }

  /** A loop throws without a body, without an iterable, on a condition that is no boolean,
      and where its last iteration or the reducer after it threw. */
  ghost predicate LoopThrew(job: Job, e: Event)
    requires IsLoop(job.g, e.node)
    decreases e, 0
  {
    var node := job.g.nodes[e.node];
    || FirstTarget(job.g, e.node).None?
    || (node.loop.mode == ForEach && job.world.iterable(e.tick).Throws?)
    || (node.loop.mode == While && |e.iterations| < LoopCap(node, job.maxIterations) &&
        NoBoolean(job.world.evaluate(TickAfter(While, e.tick, e.iterations, |e.iterations|))))
    || (e.iterations != [] && e.iterations[|e.iterations| - 1].ended.None? &&
        (TraceThrew(job, e.iterations[|e.iterations| - 1].events) || ReducerThrew(job, node, e.done)))
  }

  ghost predicate ReducerThrew(job: Job, node: Node, done: nat) {
    node.loop.accumulator.Reduce? && done > 0 && job.world.evaluate(done - 1).Throws?
  }

  /** The last dispatch of the trace threw. */
  ghost predicate TraceThrew(job: Job, events: Trace)
    decreases events
  {
    events != [] && Threw(job, events[|events| - 1])
  }

  // ----- counting -----

  /** The finished iterations of all loops in a trace, nested ones included. */
  function IterationsIn(events: Trace): nat
    decreases events
  {
    if events == [] then 0
    else IterationsIn(events[..|events| - 1]) + IterationsOf(events[|events| - 1].iterations)
  }

  function IterationsOf(its: seq<Iteration>): nat
    decreases its
  {
    if its == [] then 0
    else
      var last := its[|its| - 1];
      IterationsOf(its[..|its| - 1]) + IterationsIn(last.events) + if last.ended.Some? then 1 else 0
  }

  lemma OneMoreEvent(events: Trace, e: Event)
    ensures IterationsIn(events + [e]) == IterationsIn(events) + IterationsOf(e.iterations)
  {
    assert (events + [e])[..|events|] == events;
  }

  lemma OneMoreIteration(its: seq<Iteration>, it: Iteration)
    ensures IterationsOf(its + [it])
            == IterationsOf(its) + IterationsIn(it.events) + if it.ended.Some? then 1 else 0
  {
    assert (its + [it])[..|its|] == its;
  }

  lemma SoundSnoc(job: Job, place: Place, events: Trace, e: Event)
    requires TraceSound(job, place, events) && EventSound(job, place, events, e)
    ensures TraceSound(job, place, events + [e])
  {
    var longer := events + [e];
    forall k | 0 <= k < |longer| ensures EventSound(job, place, longer[..k], longer[k]) {
      if k < |events| {
        assert longer[..k] == events[..k] && longer[k] == events[k];
      } else {
        assert longer[..k] == events;
      }
    }
  }
}
