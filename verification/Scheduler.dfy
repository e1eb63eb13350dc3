/** The scheduler: walks a validated graph in topological order, mutating the state of
    each node, the decided control edges and the budget; loops run their bodies in
    forked states.  Everything outside the scheduler is the World. */
module Scheduler {
  import opened Common
  import opened Digraph
  import opened DataValues
  import opened PipelineGraph
  import opened GraphUtils
  import opened LoopBody
  import opened ExecutionBudget
  import opened LoopHelpers
  import opened Host
  import opened NodeResults
  import opened RunGraph
  import opened RunTrace
  import opened TraceSteps
  import opened LoopCourse
  import opened Walk
  import opened RunEnd

  datatype Limit = TimeLimit | LLMLimit | IterationLimit

  datatype RunError =
    | BudgetExceeded(limit: Limit)
    | Thrown(message: string)
    | NodeTimedOut(node: NodeId)
    | PredicateNotBoolean | ConditionNotBoolean
    | LoopWithoutBody
    | MergeWaiting(node: NodeId) | MergeWithoutInputs

  /** Why a run gives no result: it was refused, or an execution error was thrown. */
  datatype RunFailure = Refused(errors: seq<GraphError>) | Aborted(error: RunError)

  type Step = Result<(), RunError>

  const DONE: Step := Ok(())

  /** Names a loop of this kind may bind in the scope it runs in. */
  function LoopVars(node: Node): set<string> {
    if node.kind != Loop then {}
    else if node.loop.mode == ForEach then {"input"}
    else {"input", node.loop.iterVar, node.loop.indexVar}
  }

  type Bindings = map<string, DataValue>

  /** The execution state of a run, or of one loop iteration, with the trace of its dispatches. */
  class ExecutionState {
    var nodeStates: NodeStates
    var activated: set<EdgeId>
    var deactivated: set<EdgeId>
    var scope: Bindings
    ghost var events: Trace

    constructor (nodeStates: NodeStates, scope: Bindings)
      ensures this.nodeStates == nodeStates && this.scope == scope
      ensures activated == {} && deactivated == {} && events == []
    {
      this.nodeStates := nodeStates;
      this.scope := scope;
      activated, deactivated, events := {}, {}, [];
    }

    ghost function Sight(): View
      reads this
    {
      View(nodeStates, activated, deactivated)
    }
  }

  class Scheduler {
    const registry: set<NodeKind>
    const world: World
    var tick: nat
    var budget: Budget

    constructor (registry: set<NodeKind>, world: World, budget: Budget)
      ensures this.registry == registry && this.world == world && this.budget == budget
      ensures tick == 0
    {
      this.registry, this.world, this.budget := registry, world, budget;
      tick := 0;
    }

    ghost predicate Doing(job: Job, g: Graph)
      reads this`budget
    {
      job.g == g && job.world == world && job.maxIterations == budget.maxIterations
    }

    /** The error says that the budget has run out, and it has. */
    ghost predicate StoppedBy(error: RunError)
      reads this
    {
      && error.BudgetExceeded?
      && match error.limit
         case TimeLimit => exists t: nat :: t < tick && world.clock(t) - budget.startedAt >= budget.timeoutMs
         case LLMLimit => budget.llmCallsUsed >= budget.maxLLMCalls
         case IterationLimit => budget.iterationsUsed >= budget.maxIterations
    }

    ghost function Now(state: ExecutionState): Moment
      reads this, state
    {
      Moment(state.events, state.Sight(), budget, tick)
    }

    method ReadClock() returns (now: int)
      modifies this`tick
      ensures now == world.clock(old(tick)) && tick == old(tick) + 1
    {
      now := world.clock(tick);
      tick := tick + 1;
    }

    /** The budget check before a dispatch: passing it means no counter has reached its cap. */
    method CheckBudget(kind: NodeKind) returns (r: Step)
      modifies this`tick
      ensures old(tick) <= tick
      ensures r.Ok? ==> budget.llmCallsUsed < budget.maxLLMCalls && budget.iterationsUsed < budget.maxIterations
      ensures r.Ok? ==> old(tick) < tick && world.clock(tick - 1) - budget.startedAt < budget.timeoutMs
      ensures r.Err? ==> StoppedBy(r.error)
    {
      var now := ReadClock();
      if IsBudgetExceeded(budget, now) {
        now := ReadClock();
        var remaining := BudgetRemaining(budget, now);
        if remaining.timeMs <= 0 {
          return Err(BudgetExceeded(TimeLimit));
        }
        if remaining.llmCalls <= 0 {
          return Err(BudgetExceeded(LLMLimit));
        }
        if remaining.iterations <= 0 {
          return Err(BudgetExceeded(IterationLimit));
        }
      }
      if kind == Llm && budget.llmCallsUsed >= budget.maxLLMCalls {
        return Err(BudgetExceeded(LLMLimit));
      }
      now := ReadClock();
      if now - budget.startedAt >= budget.timeoutMs {
        return Err(BudgetExceeded(TimeLimit));
      }
      return DONE;
    }

    /** Runs the node definition until it returns or the retries are used up.  It succeeds
        with the first answer that returns among the first maxRetries + 1, and counts the
        failures before it. */
    method ExecuteWithRetry(node: Node, n: NodeId, inputs: Inputs, state: ExecutionState) returns (r: Answer<DataValue>)
      requires n in state.nodeStates && state.nodeStates[n].retryCount == 0
      modifies this`tick, state`nodeStates
      ensures old(tick) <= tick <= old(tick) + Max(0, node.maxRetries + 1)
      ensures r.Returns? ==>
                && old(tick) < tick && world.execute(tick - 1, inputs) == r
                && forall t :: old(tick) <= t < tick - 1 ==> world.execute(t, inputs).Throws?
      ensures r.Throws? ==>
                && tick == old(tick) + Max(0, node.maxRetries + 1)
                && forall t :: old(tick) <= t < tick ==> world.execute(t, inputs).Throws?
      ensures OnlyChanged(n, old(state.nodeStates), state.nodeStates)
      ensures state.nodeStates[n] == old(state.nodeStates)[n].(
                                       retryCount := if r.Returns? then tick - 1 - old(tick) else Max(0, node.maxRetries))
    {
      r := Throws("Execution failed after retries");
      var attempt := 0;
      ghost var before := state.nodeStates;
      while attempt <= node.maxRetries
        invariant 0 <= attempt && attempt <= Max(0, node.maxRetries + 1)
        invariant tick == old(tick) + attempt
        invariant forall t :: old(tick) <= t < tick ==> world.execute(t, inputs).Throws?
        invariant r.Throws?
        invariant state.nodeStates ==
                  before[n := before[n].(retryCount := Max(0, Min(attempt, node.maxRetries)))]
      {
        r := world.execute(tick, inputs);
        tick := tick + 1;
        if r.Returns? {
          return;
        }
        if n in state.nodeStates && attempt < node.maxRetries {
          state.nodeStates := state.nodeStates[n := state.nodeStates[n].(retryCount := attempt + 1)];
        }
        attempt := attempt + 1;
      }
    }

    /** What a failed node leaves behind under its error policy. */
    method HandleNodeError(g: Graph, n: NodeId, error: RunError, state: ExecutionState) returns (r: Step)
      requires n in g.nodes && n in state.nodeStates
      modifies state`nodeStates
      ensures r == if g.nodes[n].policy == SkipPolicy then DONE else Err(error)
      ensures OnlyChanged(n, old(state.nodeStates), state.nodeStates)
      ensures state.nodeStates[n] ==
              if g.nodes[n].policy == SkipPolicy
              then old(state.nodeStates)[n].(
                     status := Skipped,
                     output := Some(PassedOn(world, g.nodes[n], NodeInputs(n, g, old(state.nodeStates)))))
              else old(state.nodeStates)[n].(status := Failed)
    {
      if g.nodes[n].policy == SkipPolicy {
        var inputs := NodeInputs(n, g, state.nodeStates);
        var pass := PassedOn(world, g.nodes[n], inputs);
        state.nodeStates := state.nodeStates[n := state.nodeStates[n].(status := Skipped, output := Some(pass))];
        return DONE;
      }
      state.nodeStates := SetStatus(state.nodeStates, n, Failed);
      return Err(error);
    }

    /** A node run by its definition on the outputs of its predecessors.  It succeeds exactly
        when the definition returns within its retries and in time; otherwise its policy
        decides between a skip and a failure. */
    method ExecuteStandard(g: Graph, n: NodeId, state: ExecutionState) returns (r: Step)
      requires n in g.nodes && n in state.nodeStates && state.nodeStates[n] == IDLE
      requires g.nodes[n].kind == Llm ==> budget.llmCallsUsed < budget.maxLLMCalls
      modifies this`tick, this`budget, state`nodeStates
      ensures old(tick) < tick
      ensures OnlyChanged(n, old(state.nodeStates), state.nodeStates)
      ensures var succeeds := Succeeds(world, g.nodes[n], NodeInputs(n, g, old(state.nodeStates)), old(tick));
        && (r.Ok? <==> succeeds || g.nodes[n].policy == SkipPolicy)
        && budget == if succeeds && g.nodes[n].kind == Llm
                     then old(budget).(llmCallsUsed := old(budget).llmCallsUsed + 1) else old(budget)
      ensures r.Ok? ==> StandardOutcome(world, g, n, old(state.nodeStates), old(tick), state.nodeStates[n])
      ensures r.Err? ==> state.nodeStates[n].status == Failed
    {
      var node := g.nodes[n];
      var inputs := NodeInputs(n, g, state.nodeStates);
      state.nodeStates := SetStatus(state.nodeStates, n, Running);
      ghost var start := tick;
      var answer := ExecuteWithRetry(node, n, inputs, state);
      var timedOut := world.timesOut(tick);
      tick := tick + 1;
      AttemptsDecide(world, node, inputs, start, tick - 1, answer);
      SameOutputsSameInputs(IncomingData(g, n), old(state.nodeStates), state.nodeStates);
      if timedOut {
        r := HandleNodeError(g, n, NodeTimedOut(n), state);
        return;
      }
      if answer.Throws? {
        r := HandleNodeError(g, n, Thrown(answer.message), state);
        return;
      }
      if node.kind == Llm {
        budget := budget.(llmCallsUsed := budget.llmCallsUsed + 1);
      }
      state.nodeStates := Complete(state.nodeStates, n, Some(answer.value));
      return DONE;
    }

    /** A query node: the executor runs twice, the second time against a timeout, and its
        failures pass the error policy by. */
    method ExecuteQuery(n: NodeId, state: ExecutionState) returns (r: Step)
      requires n in state.nodeStates && state.nodeStates[n] == IDLE
      modifies this`tick, state`nodeStates
      ensures old(tick) < tick
      ensures r.Ok? <==> && world.execute(old(tick), []).Returns? && world.execute(old(tick) + 1, []).Returns?
                         && !world.timesOut(old(tick) + 2)
      ensures OnlyChanged(n, old(state.nodeStates), state.nodeStates)
      ensures if r.Ok? then QueryOutcome(world, old(tick), state.nodeStates[n]) && tick == old(tick) + 3
              else state.nodeStates == old(state.nodeStates)
    {
      var first := world.execute(tick, []);
      tick := tick + 1;
      if first.Throws? {
        return Err(Thrown(first.message));
      }
      var second := world.execute(tick, []);
      var timedOut := world.timesOut(tick + 1);
      tick := tick + 2;
      if timedOut {
        return Err(NodeTimedOut(n));
      }
      if second.Throws? {
        return Err(Thrown(second.message));
      }
      state.nodeStates := Complete(state.nodeStates, n, Some(second.value));
      return DONE;
    }

    /** A merge node passes on the outputs of its completed sources; skipped ones are left
        out, and a single output passes through as it is. */
    method ExecuteMerge(g: Graph, n: NodeId, state: ExecutionState) returns (r: Step)
      requires n in g.nodes && n in state.nodeStates && state.nodeStates[n] == IDLE
      modifies this`tick, state`nodeStates
      ensures old(tick) <= tick
      ensures OnlyChanged(n, old(state.nodeStates), state.nodeStates)
      ensures var outputs := MergedOutputs(IncomingData(g, n), old(state.nodeStates));
        r.Err? <==> || StillWaiting(g, n, old(state.nodeStates)) || outputs == []
                    || (|outputs| > 1 && world.execute(old(tick), MergeInput(outputs)).Throws?)
      ensures r.Ok? ==> MergeOutcome(world, g, n, old(state.nodeStates), old(tick), state.nodeStates[n])
    {
      var incoming := IncomingData(g, n);
      var inputs: seq<DataValue> := [];
      for k := 0 to |incoming|
        invariant inputs == MergedOutputs(incoming[..k], state.nodeStates)
        invariant forall j :: 0 <= j < k ==> !(g.nodes[n].waitForAll && Unsettled(incoming[j].from, state.nodeStates))
        invariant state.nodeStates == old(state.nodeStates)
      {
        assert incoming[..k + 1][..k] == incoming[..k] && incoming[k] in incoming;
        var from := incoming[k].from;
        if from !in state.nodeStates {
          continue;
        }
        var source := state.nodeStates[from];
        if source.status == Completed && source.output.Some? {
          inputs := inputs + [source.output.value];
        } else if source.status == Skipped {
          continue;
        } else if g.nodes[n].waitForAll {
          return Err(MergeWaiting(from));
        }
      }
      assert incoming[..|incoming|] == incoming;
      assert !StillWaiting(g, n, state.nodeStates);
      if inputs == [] {
        return Err(MergeWithoutInputs);
      }
      if |inputs| == 1 {
        state.nodeStates := Complete(state.nodeStates, n, Some(SafeItem(inputs[0])));
        return DONE;
      }
      state.nodeStates := SetStatus(state.nodeStates, n, Running);
      var answer := world.execute(tick, MergeInput(inputs));
      tick := tick + 1;
      if answer.Throws? {
        return Err(Thrown(answer.message));
      }
      state.nodeStates := Complete(state.nodeStates, n, Some(answer.value));
      return DONE;
    }

    // ----- conditionals -----

    /** Decides every outgoing control edge of the conditional `c`, and no other edge. */
    method DecideEdges(g: Graph, c: NodeId, result: bool, state: ExecutionState)
      modifies state`activated, state`deactivated
      ensures forall id :: id in state.activated <==> id in old(state.activated) || BranchEdge(g, c, id, result, true)
      ensures forall id :: id in state.deactivated <==> id in old(state.deactivated) || BranchEdge(g, c, id, result, false)
    {
      var control := OutgoingControl(g, c);
      ghost var activated0, deactivated0 := state.activated, state.deactivated;
      for k := 0 to |control|
        modifies state`activated, state`deactivated
        invariant state.activated == activated0 + BranchIds(control[..k], result, true)
        invariant state.deactivated == deactivated0 + BranchIds(control[..k], result, false)
      {
        BranchIdsSnoc(control, k, result);
        if Fires(control[k].condition, result) {
          state.activated := state.activated + {control[k].id};
        } else {
          state.deactivated := state.deactivated + {control[k].id};
        }
      }
      assert control[..|control|] == control;
      BranchIdsAreEdges(g, c, result);
    }

    /** Skips the listed nodes that are still pending. */
    method SkipPending(inactive: seq<NodeId>, state: ExecutionState)
      modifies state`nodeStates
      ensures state.nodeStates.Keys == old(state.nodeStates).Keys
      ensures forall m :: m in state.nodeStates ==>
                state.nodeStates[m] ==
                if old(state.nodeStates)[m].status == Pending && m in inactive
                then old(state.nodeStates)[m].(status := Skipped) else old(state.nodeStates)[m]
    {
      ghost var before := state.nodeStates;
      for k := 0 to |inactive|
        invariant state.nodeStates.Keys == before.Keys
        invariant forall m :: m in before ==>
                                state.nodeStates[m] ==
                                if before[m].status == Pending && m in inactive[..k]
                                then before[m].(status := Skipped) else before[m]
      {
        assert inactive[..k + 1] == inactive[..k] + [inactive[k]];
        if inactive[k] in state.nodeStates && state.nodeStates[inactive[k]].status == Pending {
          state.nodeStates := SetStatus(state.nodeStates, inactive[k], Skipped);
        }
      }
      assert inactive[..|inactive|] == inactive;
    }

    /** A conditional: its control edges are decided as its predicate's value demands, its
        input passes through, and exactly the pending nodes on the branches it did not take
        are skipped.  It fails exactly when the predicate throws or is no boolean. */
    method ExecuteConditional(g: Graph, c: NodeId, state: ExecutionState) returns (r: Step)
      requires c in state.nodeStates && state.nodeStates[c] == IDLE
      modifies this`tick, state`nodeStates, state`activated, state`deactivated
      ensures tick == old(tick) + 1
      ensures r.Ok? <==> world.evaluate(old(tick)).Returns? && world.evaluate(old(tick)).value.Bool?
      ensures r.Err? ==> state.Sight() == old(state.Sight())
      ensures state.nodeStates.Keys == old(state.nodeStates).Keys
      ensures r.Ok? ==> ConditionalOutcome(world, g, c, old(state.nodeStates), old(tick), state.nodeStates[c])
      ensures r.Ok? ==>
                var verdict := world.evaluate(old(tick)).value.b;
                && (forall id :: id in state.activated <==>
                                 id in old(state.activated) || BranchEdge(g, c, id, verdict, true))
                && (forall id :: id in state.deactivated <==>
                                 id in old(state.deactivated) || BranchEdge(g, c, id, verdict, false))
      ensures r.Ok? ==> forall m :: m in state.nodeStates && m != c ==>
                          state.nodeStates[m] ==
                          if old(state.nodeStates)[m].status == Pending && OnInactiveBranch(g, c, state.deactivated, m)
                          then old(state.nodeStates)[m].(status := Skipped) else old(state.nodeStates)[m]
    {
      var inputs := NodeInputs(c, g, state.nodeStates);
      var answer := world.evaluate(tick);
      tick := tick + 1;
      if answer.Throws? {
        return Err(Thrown(answer.message));
      }
      if !answer.value.Bool? {
        return Err(PredicateNotBoolean);
      }
      DecideEdges(g, c, answer.value.b, state);
      state.nodeStates := Complete(state.nodeStates, c, GetInput(inputs, "input"));
      var inactive := NodesOnInactiveBranches(g, c, state.deactivated);
      SkipPending(inactive, state);
      return DONE;
    }

    // ----- loops -----

    /** Walks, in execution order, the nodes of a forked iteration state that `start` leads to. */
    method ExecuteSubgraph(
      g: Graph, order: seq<NodeId>, ghost i: nat, start: NodeId, state: ExecutionState,
      ghost job: Job, ghost item: DataValue)
      returns (r: Step)
      requires Doing(job, g) && Runnable(g, order) && i < |order| && IsLoop(g, order[i])
      requires start in g.nodes && FirstTarget(g, order[i]) == Some(start)
      requires state.events == [] && Forked(g, order[i], item, state.Sight())
      modifies this`tick, this`budget, state
      decreases |order| - i, 1
      ensures Walked(job, IterationOf(order[i], item), Depth(g, order, i) - 1, old(Now(state)), Now(state))
      ensures r.Ok? ==> IterationMade(job, order[i], item, state.events, state.Sight())
      ensures r.Err? ==> StoppedBy(r.error) || TraceThrew(job, state.events)
      ensures r.Ok? ==> old(budget).iterationsUsed < old(budget).maxIterations
    {
      var walk := NodesToExecute(g, start, state);
      ghost var s := Now(state);
      ghost var place, depth := IterationOf(order[i], item), Depth(g, order, i) - 1;
      WalkIsRunBody(g, order, i, item, start, state.Sight(), walk);
      ForkTracks(job, order[i], item, state.Sight());
      WalkStarts(job, order, place, walk, depth, s);
      for j := 0 to |order|
        invariant Doing(job, g)
        invariant Walking(job, order, j, place, walk, depth, s, Now(state))
      {
        if order[j] !in walk {
          WalkPasses(job, order, j, place, walk, depth, s, Now(state));
          continue;
        }
        r := WalkNode(g, order, i, j, walk, s, state, job, item);
        if r.Err? {
          return;
        }
      }
      WalkEnds(job, order, place, walk, depth, s, Now(state));
      return DONE;
    }

    /** The pending nodes that `start` leads to. */
    method NodesToExecute(g: Graph, start: NodeId, state: ExecutionState) returns (walk: set<NodeId>)
      requires ValidEndpoints(g) && start in g.nodes
      ensures forall n :: n in walk <==>
                            Reaches(DataRel(g), start, n) && n in state.nodeStates && state.nodeStates[n].status == Pending
    {
      var reachable := ReachableNodes(g, start);
      walk := set n | n in state.nodeStates && state.nodeStates[n].status == Pending && n in reachable;
    }

    /** One node of the walk: passed over, skipped or dispatched. */
    method WalkNode(
      g: Graph, order: seq<NodeId>, ghost i: nat, j: nat, ghost walk: set<NodeId>, ghost s: Moment,
      state: ExecutionState, ghost job: Job, ghost item: DataValue)
      returns (r: Step)
      requires Doing(job, g) && Runnable(g, order) && i < |order| && j < |order| && IsLoop(g, order[i])
      requires forall n :: n in walk <==> InRunBody(g, order[i], n)
      requires Walking(job, order, j, IterationOf(order[i], item), walk, Depth(g, order, i) - 1, s, Now(state))
      requires order[j] in walk
      modifies this`tick, this`budget, state
      decreases |order| - i, 0
      ensures Doing(job, g)
      ensures r.Ok? ==>
                Walking(job, order, j + 1, IterationOf(order[i], item), walk, Depth(g, order, i) - 1, s, Now(state))
      ensures r.Err? ==> Walked(job, IterationOf(order[i], item), Depth(g, order, i) - 1, s, Now(state))
      ensures r.Err? ==> StoppedBy(r.error) || TraceThrew(job, state.events)
    {
      var nodeId := order[j];
      ghost var t, place, depth := Now(state), IterationOf(order[i], item), Depth(g, order, i) - 1;
      BodyNodeInTurn(g, order, i, j);
      if nodeId !in state.nodeStates || state.nodeStates[nodeId].status != Pending {
        WalkPassesBody(job, order, i, item, j, walk, depth, s, t);
        return DONE;
      }
      if !IsControlPathActive(nodeId, g, state.activated, state.deactivated) {
        state.nodeStates := SetStatus(state.nodeStates, nodeId, Skipped);
        WalkMarks(job, order, j, place, walk, depth, s, t, Now(state));
        return DONE;
      }
      DispatchableInTurn(job, order, j, place, walk, depth, s, t);
      r := Dispatch(g, order, j, state, job, place, walk, depth, s);
    }

    /** Dispatches the node whose turn it is, as one more step of the walk. */
    method Dispatch(
      g: Graph, order: seq<NodeId>, j: nat, state: ExecutionState,
      ghost job: Job, ghost place: Place, ghost due: set<NodeId>, ghost depth: nat, ghost s: Moment)
      returns (r: Step)
      requires Doing(job, g) && Runnable(g, order) && j < |order|
      requires Walking(job, order, j, place, due, depth, s, Now(state)) && StartedBefore(order, j, place)
      requires Dispatchable(job, place, state.events, state.Sight(), order[j]) && Depth(g, order, j) <= depth
      modifies this`tick, this`budget, state
      decreases |order| - j, 9
      ensures Doing(job, g)
      ensures r.Ok? ==> Walking(job, order, j + 1, place, due, depth, s, Now(state))
      ensures r.Err? ==> Walked(job, place, depth, s, Now(state))
      ensures r.Err? ==> StoppedBy(r.error) || TraceThrew(job, state.events)
    {
      ghost var t := Now(state);
      r := ExecuteNode(g, order, j, order[j], state, job, place);
      if r.Err? {
        WalkGoesOn(job, order, j, place, due, depth, Depth(g, order, j), s, t, Now(state), false);
      } else {
        WalkRuns(job, order, j, place, due, depth, Depth(g, order, j), s, t, Now(state));
      }
    }

    /** Forks a state for one iteration over `item` and runs the body in it.  Having run, the
        iteration has every node it runs settled, and accounted for by its own trace. */
    method RunIteration(
      g: Graph, order: seq<NodeId>, ghost i: nat, l: NodeId, body: seq<NodeId>, start: NodeId,
      item: DataValue, bindings: Bindings, ghost job: Job)
      returns (r: Step, iteration: ExecutionState, ghost half: Iteration)
      requires Doing(job, g) && Runnable(g, order) && i < |order| && order[i] == l && IsLoop(g, l)
      requires Elems(body) == BodyOf(g, l) && FirstTarget(g, l) == Some(start)
      modifies this`tick, this`budget
      decreases |order| - i, 2
      ensures fresh(iteration) && old(tick) <= tick && Doing(job, g)
      ensures half.item == item && half.started == old(tick)
      ensures half.events == iteration.events && half.view == iteration.Sight()
      ensures BodyRan(job, l, half, old(budget), budget, Depth(g, order, i) - 1, tick, r.Ok?)
      ensures r.Err? ==> StoppedBy(r.error) || TraceThrew(job, half.events)
    {
      iteration := new ExecutionState(ForkStates(body, l, item), bindings);
      ForkIsForked(g, order, i, body, start, item);
      ghost var s := Now(iteration);
      r := ExecuteSubgraph(g, order, i, start, iteration, job, item);
      half := Iteration(item, old(tick), iteration.events, iteration.Sight(), None, Null);
      WalkIsBody(job, l, half, Depth(g, order, i) - 1, s, Now(iteration), r.Ok?);
    }

    /** Folds a body result into the accumulator; a reducer sees both in the iteration's scope. */
    method Accumulate(a: Accumulator, acc: DataValue, item: DataValue, iteration: ExecutionState)
      returns (r: Result<DataValue, RunError>, reduced: Value)
      modifies this`tick, iteration`scope
      ensures tick == old(tick) + if a.Reduce? then 1 else 0
      ensures r.Err? <==> a.Reduce? && world.evaluate(old(tick)).Throws?
      ensures r.Ok? ==> r.value == UpdateAccumulator(a, acc, item, reduced)
      ensures r.Ok? && a.Reduce? ==> world.evaluate(old(tick)) == Returns(reduced)
    {
      reduced := Null;
      if a.Reduce? {
        iteration.scope := iteration.scope["acc" := acc]["item" := item];
        var answer := world.evaluate(tick);
        tick := tick + 1;
        if answer.Throws? {
          return Err(Thrown(answer.message)), reduced;
        }
        reduced := answer.value;
      }
      return Ok(UpdateAccumulator(a, acc, item, reduced)), reduced;
    }

    /** One turn of a loop: run the body, accumulate its output, count the iteration. */
    method Iterate(
      g: Graph, order: seq<NodeId>, ghost i: nat, l: NodeId, body: seq<NodeId>, start: NodeId,
      item: DataValue, bindings: Bindings, acc: DataValue, ghost job: Job)
      returns (r: Result<DataValue, RunError>, ghost it: Iteration)
      requires Doing(job, g) && Runnable(g, order) && i < |order| && order[i] == l && IsLoop(g, l)
      requires Elems(body) == BodyOf(g, l) && FirstTarget(g, l) == Some(start)
      modifies this`tick, this`budget
      decreases |order| - i, 3, 0
      ensures it.item == item && it.started == old(tick) <= tick
      ensures it.ended == if r.Ok? then Some(tick) else None
      ensures r.Err? ==> StoppedBy(r.error) || TraceThrew(job, it.events) || ReducerThrew(job, g.nodes[l], tick)
      ensures Turned(job, l, it, old(budget), budget, Depth(g, order, i))
      ensures r.Ok? ==> r.value ==
                        UpdateAccumulator(g.nodes[l].loop.accumulator, acc,
                                          SubgraphOutput(body, g, it.view.states), it.reduced)
    {
      var step, iteration, half := RunIteration(g, order, i, l, body, start, item, bindings, job);
      if step.Err? {
        it := half;
        TurnThrows(job, l, it, old(budget), budget, Depth(g, order, i), tick, false);
        return Err(step.error), it;
      }
      r, it := FoldTurn(g, l, body, acc, iteration, half, job, old(budget), Depth(g, order, i));
    }

    /** The end of a turn: its output is folded into the accumulator, and the turn counted. */
    method FoldTurn(
      g: Graph, l: NodeId, body: seq<NodeId>, acc: DataValue, iteration: ExecutionState,
      ghost half: Iteration, ghost job: Job, ghost b0: Budget, ghost depth: nat)
      returns (r: Result<DataValue, RunError>, ghost it: Iteration)
      requires Doing(job, g) && IsLoop(g, l) && half.view == iteration.Sight()
      requires depth > 0 && BodyRan(job, l, half, b0, budget, depth - 1, tick, true)
      modifies this`tick, this`budget, iteration`scope
      ensures it.item == half.item && it.started == half.started && old(tick) <= tick
      ensures it.ended == if r.Ok? then Some(tick) else None
      ensures r.Err? ==> ReducerThrew(job, g.nodes[l], tick)
      ensures Turned(job, l, it, b0, budget, depth)
      ensures r.Ok? ==> r.value ==
                        UpdateAccumulator(g.nodes[l].loop.accumulator, acc,
                                          SubgraphOutput(body, g, it.view.states), it.reduced)
    {
      it := half;
      var output := SubgraphOutput(body, g, iteration.nodeStates);
      var reduced;
      r, reduced := Accumulate(g.nodes[l].loop.accumulator, acc, output, iteration);
      if r.Err? {
        TurnThrows(job, l, it, b0, budget, depth, old(tick), true);
        return;
      }
      budget := budget.(iterationsUsed := budget.iterationsUsed + 1);
      it := half.(ended := Some(tick), reduced := reduced);
      TurnFinishes(job, l, half, it, b0, old(budget), budget, depth, old(tick));
    }

    /** One more turn, of a loop that has made the given ones. */
    method IterateAgain(
      g: Graph, order: seq<NodeId>, ghost i: nat, l: NodeId, body: seq<NodeId>, start: NodeId,
      item: DataValue, bindings: Bindings, acc: DataValue,
      ghost job: Job, ghost at: View, ghost asked: nat, ghost its: seq<Iteration>, ghost b0: Budget, ghost now: nat)
      returns (r: Result<DataValue, RunError>, ghost more: seq<Iteration>)
      requires Doing(job, g) && Runnable(g, order) && i < |order| && order[i] == l && IsLoop(g, l)
      requires Elems(body) == BodyOf(g, l) && FirstTarget(g, l) == Some(start)
      requires Going(job, at, l, asked, its, b0, budget, Depth(g, order, i), now) && now <= tick
      requires NextIsDue(job, at, l, asked, its, item, tick)
      requires acc == Accumulated(g.nodes[l].loop.accumulator, Turns(g, body, its))
      modifies this`tick, this`budget
      decreases |order| - i, 3, 1
      ensures Doing(job, g) && old(tick) <= tick && |more| == |its| + 1
      ensures Iterated(job, at, l, asked, more, b0, budget, Depth(g, order, i))
      ensures r.Ok? ==> Going(job, at, l, asked, more, b0, budget, Depth(g, order, i), tick)
      ensures r.Ok? ==> r.value == Accumulated(g.nodes[l].loop.accumulator, Turns(g, body, more))
      ensures r.Err? ==> StoppedBy(r.error) || LastThrew(job, l, more, tick)
    {
      ghost var b1 := budget;
      ghost var it;
      r, it := Iterate(g, order, i, l, body, start, item, bindings, acc, job);
      TurnGoesOn(job, at, l, asked, its, it, b0, b1, budget, Depth(g, order, i), now);
      TurnAccumulates(g, g.nodes[l].loop.accumulator, body, its, it);
      more := its + [it];
    }

    /** The item, and its index under the name given for it. */
    function ItemBindings(payload: LoopPayload, item: DataValue, index: nat): Bindings {
      var named: Bindings := map[payload.iterVar := item];
      if payload.indexVar != "" then named[payload.indexVar := Scalar(Num(index as real))] else named
    }

    /** The iterations of a forEach loop: one per item, in order, up to the cap. */
    method IterateItems(
      g: Graph, order: seq<NodeId>, ghost i: nat, l: NodeId, body: seq<NodeId>, start: NodeId,
      items: seq<DataValue>, maxIter: int, ghost job: Job, ghost at: View, ghost asked: nat)
      returns (r: Result<DataValue, RunError>, ghost its: seq<Iteration>)
      requires Doing(job, g) && Runnable(g, order) && i < |order| && order[i] == l && IsLoop(g, l)
      requires Elems(body) == BodyOf(g, l) && FirstTarget(g, l) == Some(start)
      requires g.nodes[l].loop.mode == ForEach && Max(0, maxIter) == LoopCap(g.nodes[l], job.maxIterations)
      requires tick == asked + 1 && world.iterable(asked).Returns? && items == ToIterable(world.iterable(asked).value)
      modifies this`tick, this`budget
      decreases |order| - i, 4
      ensures Iterated(job, at, l, asked, its, old(budget), budget, Depth(g, order, i)) && old(tick) <= tick
      ensures r.Err? ==> StoppedBy(r.error) || LastThrew(job, l, its, tick)
      ensures r.Ok? ==> |its| == Min(|items|, Max(0, maxIter)) && AllFinished(its)
      ensures r.Ok? ==> r.value == Accumulated(g.nodes[l].loop.accumulator, Turns(g, body, its))
    {
      var payload := g.nodes[l].loop;
      var accumulated := InitAccumulator(payload.accumulator);
      var iterCount: nat := 0;
      its := [];
      while iterCount < |items|
        invariant iterCount <= |items| && iterCount <= Max(0, maxIter) && |its| == iterCount
        invariant Doing(job, g) && old(tick) <= tick
        invariant Going(job, at, l, asked, its, old(budget), budget, Depth(g, order, i), tick)
        invariant accumulated == Accumulated(payload.accumulator, Turns(g, body, its))
      {
        if iterCount >= maxIter {
          break;
        }
        var item := items[iterCount];
        r, its := IterateAgain(g, order, i, l, body, start, item, ItemBindings(payload, item, iterCount), accumulated,
                               job, at, asked, its, old(budget), tick);
        if r.Err? {
          return;
        }
        accumulated := r.value;
        iterCount := iterCount + 1;
      }
      r := Ok(accumulated);
    }

    /** Binds the counter in the outer scope and evaluates the loop condition there. */
    method WhileCondition(payload: LoopPayload, count: DataValue, state: ExecutionState)
      returns (r: Result<bool, RunError>)
      modifies this`tick, state`scope
      ensures tick == old(tick) + 1
      ensures r.Ok? ==> world.evaluate(old(tick)) == Returns(Bool(r.value))
      ensures r.Err? ==> world.evaluate(old(tick)).Throws? || !world.evaluate(old(tick)).value.Bool?
      ensures OnlyBinds(old(state.scope), state.scope, {payload.iterVar, payload.indexVar})
    {
      if payload.iterVar != "" {
        state.scope := state.scope[payload.iterVar := count];
      }
      if payload.indexVar != "" {
        state.scope := state.scope[payload.indexVar := count];
      }
      var condition := world.evaluate(tick);
      tick := tick + 1;
      if condition.Throws? {
        return Err(Thrown(condition.message));
      }
      if !condition.value.Bool? {
        return Err(ConditionNotBoolean);
      }
      return Ok(condition.value.b);
    }

    /** The iterations of a while loop: as long as its condition holds, up to the cap. */
    method IterateWhile(
      g: Graph, order: seq<NodeId>, ghost i: nat, l: NodeId, body: seq<NodeId>, start: NodeId,
      input: DataValue, maxIter: int, state: ExecutionState, ghost job: Job, ghost at: View)
      returns (r: Result<DataValue, RunError>, ghost its: seq<Iteration>)
      requires Doing(job, g) && Runnable(g, order) && i < |order| && order[i] == l && IsLoop(g, l)
      requires Elems(body) == BodyOf(g, l) && FirstTarget(g, l) == Some(start)
      requires g.nodes[l].loop.mode == While && Max(0, maxIter) == LoopCap(g.nodes[l], job.maxIterations)
      requires input == WhileInput(NodeInputs(l, g, at.states))
      modifies this`tick, this`budget, state`scope
      decreases |order| - i, 4
      ensures Iterated(job, at, l, old(tick), its, old(budget), budget, Depth(g, order, i)) && old(tick) <= tick
      ensures r.Err? ==> || StoppedBy(r.error) || LastThrew(job, l, its, tick)
                         || ConditionThrew(job, l, old(tick), its)
      ensures r.Ok? ==> AllFinished(its)
      ensures r.Ok? ==> || |its| == Max(0, maxIter)
                        || world.evaluate(TickAfter(While, old(tick), its, |its|)) == Returns(Bool(false))
      ensures r.Ok? ==> r.value == Accumulated(g.nodes[l].loop.accumulator, Turns(g, body, its))
      ensures OnlyBinds(old(state.scope), state.scope, {g.nodes[l].loop.iterVar, g.nodes[l].loop.indexVar})
    {
      var payload := g.nodes[l].loop;
      var accumulated := InitAccumulator(payload.accumulator);
      var iterCount: nat := 0;
      its := [];
      while true
        invariant iterCount <= Max(0, maxIter) && |its| == iterCount
        invariant Doing(job, g) && old(tick) <= tick
        invariant Going(job, at, l, old(tick), its, old(budget), budget, Depth(g, order, i), tick)
        invariant accumulated == Accumulated(payload.accumulator, Turns(g, body, its))
        invariant OnlyBinds(old(state.scope), state.scope, {payload.iterVar, payload.indexVar})
        decreases maxIter - iterCount
      {
        if iterCount >= maxIter {
          break;
        }
        var count := Scalar(Num(iterCount as real));
        ghost var scope1, now := state.scope, tick;
        var condition := WhileCondition(payload, count, state);
        BindsStill(old(state.scope), scope1, state.scope, {payload.iterVar, payload.indexVar});
        if condition.Err? {
          return Err(condition.error), its;
        }
        if !condition.value {
          break;
        }
        var bindings: Bindings := if payload.iterVar != "" then map[payload.iterVar := count] else map[];
        r, its := IterateAgain(g, order, i, l, body, start, input, bindings, accumulated,
                               job, at, old(tick), its, old(budget), now);
        if r.Err? {
          return;
        }
        accumulated := r.value;
        iterCount := iterCount + 1;
      }
      r := Ok(accumulated);
    }

    /** A loop node.  Its iterations are due one after the other, and each that finished ran
        the body.  When it returns, it has made one for each item up to the cap, or as many
        as its condition and the cap let it; its output accumulates exactly their results;
        its body is marked, and nothing else has changed. */
    method ExecuteLoop(g: Graph, order: seq<NodeId>, ghost i: nat, l: NodeId, state: ExecutionState, ghost job: Job)
      returns (r: Step, ghost body: seq<NodeId>, ghost its: seq<Iteration>)
      requires Doing(job, g) && Runnable(g, order) && i < |order| && order[i] == l && IsLoop(g, l)
      requires l in state.nodeStates && state.nodeStates[l] == IDLE
      modifies this`tick, this`budget, state`nodeStates, state`scope
      decreases |order| - i, 6
      ensures Iterated(job, old(state.Sight()), l, old(tick), its, old(budget), budget, Depth(g, order, i))
      ensures old(tick) <= tick
      ensures OnlyBinds(old(state.scope), state.scope, LoopVars(g.nodes[l]))
      ensures r.Err? ==> || StoppedBy(r.error) || LastThrew(job, l, its, tick) || ConditionThrew(job, l, old(tick), its)
                         || (g.nodes[l].loop.mode == ForEach && world.iterable(old(tick)).Throws?)
                         || FirstTarget(g, l).None?
      ensures r.Ok? ==> l in state.nodeStates && LoopOutcome(job, l, old(tick), body, its, state.nodeStates[l])
      ensures r.Ok? ==> state.nodeStates.Keys == old(state.nodeStates).Keys + BodyOf(g, l)
      ensures r.Ok? ==> forall n :: n in state.nodeStates && n != l ==>
                state.nodeStates[n] == if n in BodyOf(g, l) then CONSUMED else old(state.nodeStates)[n]
    {
      body, its := [], [];
      ghost var at := state.Sight();
      var inputs := NodeInputs(l, g, state.nodeStates);
      state.scope := state.scope["input" := LoopInput(inputs)];
      var target := FirstTarget(g, l);
      if target.None? {
        return Err(LoopWithoutBody), body, its;
      }
      var bodyIds := BodyNodeIds(g, l);
      body := bodyIds;
      var result: Result<DataValue, RunError>;
      result, its := IterateBody(g, order, i, l, bodyIds, target.value, inputs, state, job, at);
      if result.Err? {
        return Err(result.error), body, its;
      }
      MarkBody(g, order, i, bodyIds, state);
      state.nodeStates := Complete(state.nodeStates, l, Some(result.value));
      return DONE, body, its;
    }

    /** The iterations of a loop, by its mode. */
    method IterateBody(
      g: Graph, order: seq<NodeId>, ghost i: nat, l: NodeId, body: seq<NodeId>, start: NodeId,
      inputs: Inputs, state: ExecutionState, ghost job: Job, ghost at: View)
      returns (r: Result<DataValue, RunError>, ghost its: seq<Iteration>)
      requires Doing(job, g) && Runnable(g, order) && i < |order| && order[i] == l && IsLoop(g, l)
      requires NoDup(body) && Elems(body) == BodyOf(g, l) && FirstTarget(g, l) == Some(start)
      requires inputs == NodeInputs(l, g, at.states)
      modifies this`tick, this`budget, state`scope
      decreases |order| - i, 5
      ensures Iterated(job, at, l, old(tick), its, old(budget), budget, Depth(g, order, i)) && old(tick) <= tick
      ensures OnlyBinds(old(state.scope), state.scope, LoopVars(g.nodes[l]))
      ensures r.Ok? ==> LoopOutcome(job, l, old(tick), body, its, NodeState(Completed, Some(r.value), 0))
      ensures r.Err? ==> || StoppedBy(r.error) || LastThrew(job, l, its, tick) || ConditionThrew(job, l, old(tick), its)
                         || (g.nodes[l].loop.mode == ForEach && world.iterable(old(tick)).Throws?)
    {
      its := [];
      var payload := g.nodes[l].loop;
      var maxIter := Min(payload.maxIterations, budget.maxIterations);
      ghost var asked := tick;
      if payload.mode == ForEach {
        var iterable := world.iterable(tick);
        tick := tick + 1;
        if iterable.Throws? {
          return Err(Thrown(iterable.message)), its;
        }
        r, its := IterateItems(g, order, i, l, body, start, ToIterable(iterable.value), maxIter, job, at, asked);
      } else {
        r, its := IterateWhile(g, order, i, l, body, start, WhileInput(inputs), maxIter, state, job, at);
      }
    }

    /** Marks every body node completed in the outer state, so it is not run again there. */
    method MarkBody(g: Graph, order: seq<NodeId>, ghost i: nat, body: seq<NodeId>, state: ExecutionState)
      requires Runnable(g, order) && i < |order| && Elems(body) == BodyOf(g, order[i])
      modifies state`nodeStates
      ensures state.nodeStates.Keys == old(state.nodeStates).Keys + BodyOf(g, order[i])
      ensures forall n :: n in state.nodeStates ==>
                            state.nodeStates[n] == if n in BodyOf(g, order[i]) then CONSUMED else old(state.nodeStates)[n]
    {
      ghost var before := state.nodeStates;
      for k := 0 to |body|
        invariant state.nodeStates.Keys == before.Keys + Elems(body[..k])
        invariant forall n :: n in state.nodeStates ==>
                                state.nodeStates[n] == if n in body[..k] then CONSUMED else before[n]
      {
        assert body[..k + 1] == body[..k] + [body[k]];
        state.nodeStates := state.nodeStates[body[k] := NodeState(Completed, None, 0)];
      }
      assert body[..|body|] == body;
      assert forall n :: n in body <==> n in Elems(body);
    }

    // ----- dispatch -----

    /** Runs a node that has passed the budget check, by its kind: what it leaves is the
        outcome its kind calls for, and the execution state changes as that demands. */
    method ExecuteKind(g: Graph, order: seq<NodeId>, ghost i: nat, nodeId: NodeId, state: ExecutionState, ghost job: Job)
      returns (r: Step, ghost e: Event)
      requires Doing(job, g) && Runnable(g, order) && i < |order| && order[i] == nodeId && nodeId in g.nodes
      requires Calm(state.nodeStates) && nodeId in state.nodeStates && state.nodeStates[nodeId] == IDLE
      requires budget.llmCallsUsed < budget.maxLLMCalls
      modifies this`tick, this`budget, state`nodeStates, state`activated, state`deactivated, state`scope
      decreases |order| - i, 7
      ensures e.node == nodeId && e.at == old(state.Sight()) && old(tick) == e.tick <= e.done == tick
      ensures EventRan(job, e)
      ensures Spent(old(budget), budget, Depth(g, order, i))
      ensures budget.iterationsUsed == old(budget).iterationsUsed + IterationsOf(e.iterations)
      ensures (e.left.Some? <==> r.Ok?) && (r.Ok? ==> Moved(job, e, state.Sight()))
      ensures r.Err? ==> StoppedBy(r.error) || Threw(job, e)
      ensures OnlyBinds(old(state.scope), state.scope, LoopVars(g.nodes[nodeId]))
    {
      ghost var at := state.Sight();
      var kind := g.nodes[nodeId].kind;
      if kind == Conditional {
        r := ExecuteConditional(g, nodeId, state);
        e := Event(at, nodeId, old(tick), [], [], if r.Ok? then Some(state.nodeStates[nodeId]) else None, tick);
        ConditionalRan(job, e, state.Sight());
      } else if kind == Loop {
        ghost var body, its;
        r, body, its := ExecuteLoop(g, order, i, nodeId, state, job);
        e := Event(at, nodeId, old(tick), body, its, if r.Ok? then Some(state.nodeStates[nodeId]) else None, tick);
        LoopRan(job, e, old(budget), budget, Depth(g, order, i));
        if r.Ok? {
          LoopMoved(job, e, state.Sight());
        } else if !StoppedBy(r.error) {
          LoopThrows(job, e);
        }
      } else {
        r := ExecutePlain(g, nodeId, state);
        e := Event(at, nodeId, old(tick), [], [], if r.Ok? then Some(state.nodeStates[nodeId]) else None, tick);
        PlainRan(job, e, state.Sight());
      }
    }

    /** A node that is neither a conditional nor a loop: it touches its own state only. */
    method ExecutePlain(g: Graph, n: NodeId, state: ExecutionState) returns (r: Step)
      requires n in g.nodes && n in state.nodeStates && state.nodeStates[n] == IDLE
      requires budget.llmCallsUsed < budget.maxLLMCalls
      modifies this`tick, this`budget, state`nodeStates
      ensures old(tick) <= tick
      ensures Spent(old(budget), budget, 0) && budget.iterationsUsed == old(budget).iterationsUsed
      ensures OnlyChanged(n, old(state.nodeStates), state.nodeStates)
      ensures r.Ok? ==> PlainOutcome(world, g, n, old(state.nodeStates), old(tick), state.nodeStates[n])
      ensures r.Err? <==> PlainThrows(world, g, n, old(state.nodeStates), old(tick))
    {
      if g.nodes[n].kind == Merge {
        r := ExecuteMerge(g, n, state);
      } else if g.nodes[n].kind == Query {
        r := ExecuteQuery(n, state);
      } else {
        r := ExecuteStandard(g, n, state);
      }
    }

    /** Dispatches one node: budget check, execution, trace. */
    method ExecuteNode(
      g: Graph, order: seq<NodeId>, ghost i: nat, nodeId: NodeId, state: ExecutionState,
      ghost job: Job, ghost place: Place)
      returns (r: Step)
      requires Doing(job, g) && Runnable(g, order) && i < |order| && order[i] == nodeId
      requires Dispatchable(job, place, state.events, state.Sight(), nodeId)
      modifies this`tick, this`budget, state
      decreases |order| - i, 8
      ensures Doing(job, g)
      ensures Ran(job, place, nodeId, Depth(g, order, i), old(Now(state)), Now(state), r.Ok?)
      ensures r.Err? ==> StoppedBy(r.error) || TraceThrew(job, state.events)
      ensures OnlyBinds(old(state.scope), state.scope, LoopVars(g.nodes[nodeId]))
    {
      ghost var s := Now(state);
      r := CheckBudget(g.nodes[nodeId].kind);
      if r.Err? {
        return;
      }
      ghost var e;
      r, e := ExecuteKind(g, order, i, nodeId, state, job);
      state.events := state.events + [e];
      NewEventRan(job, place, nodeId, Depth(g, order, i), s, Now(state), e, r.Ok?);
    }

    // ----- the run -----

    /** All data predecessors settled and the control path active. */
    method IsReadyToExecute(nodeId: NodeId, g: Graph, state: ExecutionState) returns (ready: bool)
      ensures ready <==>
                && nodeId in state.nodeStates && state.nodeStates[nodeId].status == Pending
                && Ready(g, nodeId, state.nodeStates)
                && IsControlPathActive(nodeId, g, state.activated, state.deactivated)
    {
      if nodeId !in state.nodeStates || state.nodeStates[nodeId].status != Pending {
        return false;
      }
      var incoming := IncomingData(g, nodeId);
      for k := 0 to |incoming|
        invariant forall j :: 0 <= j < k ==> incoming[j].from in state.nodeStates &&
                                             Settled(state.nodeStates[incoming[j].from].status)
      {
        var from := incoming[k].from;
        if from !in state.nodeStates || !Settled(state.nodeStates[from].status) {
          assert incoming[k] in incoming;
          DataEdgeInRel(g, incoming[k]);
          return false;
        }
      }
      forall a | (a, nodeId) in DataRel(g) ensures a in state.nodeStates && Settled(state.nodeStates[a].status) {
        var e := DataRelEdge(g, a, nodeId);
        assert e in incoming;
      }
      return IsControlPathActive(nodeId, g, state.activated, state.deactivated);
    }

    /** Validation, and the order of a graph that passes it. */
    method Prepare(g: Graph) returns (errors: seq<GraphError>, order: seq<NodeId>)
      requires WellKeyed(g) && Supported(g)
      ensures errors == [] <==> Structural(g, Some(registry))
      ensures errors == [] ==> Runnable(g, order)
    {
      order := [];
      errors := ValidateGraph(g, Some(registry));
      if errors == [] {
        var sorted := TopologicalSort(g);
        order := sorted.value;
      }
    }

    /** A whole run.  It is refused exactly when validation fails.  Otherwise it is safe,
        whether it returns or throws.  If it returns, every node is completed or skipped,
        each for a reason its trace gives, and the status is success; if it throws, the
        budget has run out or the last dispatch threw, for the reason its kind has. */
    method Run(g: Graph)
      returns (r: Result<ExecutionResult, RunFailure>, ghost order: seq<NodeId>, ghost trace: Trace, ghost end: View)
      requires WellKeyed(g) && Supported(g)
      modifies this`tick, this`budget
      ensures r.Err? && r.error.Refused? <==> !Structural(g, Some(registry))
      ensures var job := Job(g, world, old(budget).maxIterations);
        && (Structural(g, Some(registry)) ==> SafeRun(job, order, trace, old(budget), budget))
        && (r.Ok? ==> FinishedRun(job, trace, end, r.value))
        && (r.Err? && r.error.Aborted? ==> StoppedBy(r.error.error) || TraceThrew(job, trace))
      ensures Structural(g, Some(registry)) ==> Timed(trace, old(tick), tick)
    {
      trace, end := [], View(map[], {}, {});
      var errors, walk := Prepare(g);
      order := walk;
      if errors != [] {
        return Err(Refused(errors)), order, trace, end;
      }
      var result;
      result, trace, end := RunOrder(g, walk, Job(g, world, budget.maxIterations));
      r := if result.Ok? then Ok(result.value) else Err(Aborted(result.error));
    }

    /** The main loop, over a fresh state. */
    method RunOrder(g: Graph, order: seq<NodeId>, ghost job: Job)
      returns (r: Result<ExecutionResult, RunError>, ghost trace: Trace, ghost end: View)
      requires Doing(job, g) && Runnable(g, order)
      modifies this`tick, this`budget
      ensures SafeRun(job, order, trace, old(budget), budget) && Timed(trace, old(tick), tick)
      ensures r.Ok? ==> FinishedRun(job, trace, end, r.value)
      ensures r.Err? ==> StoppedBy(r.error) || TraceThrew(job, trace)
    {
      var state := new ExecutionState(FreshStates(g), map[]);
      ghost var s, due := Now(state), g.nodes.Keys;
      FreshTracks(job, RunItself, state.Sight());
      WalkStarts(job, order, RunItself, due, NestingDepth(g, order, 0), s);
      for k := 0 to |order|
        invariant Doing(job, g)
        invariant Walking(job, order, k, RunItself, due, NestingDepth(g, order, 0), s, Now(state))
      {
        var step := RunNode(g, order, k, s, state, job);
        if step.Err? {
          return Err(step.error), state.events, state.Sight();
        }
      }
      WalkEnds(job, order, RunItself, due, NestingDepth(g, order, 0), s, Now(state));
      RunFinishes(job, order, s, Now(state));
      return Ok(ExecutionResult(StatusOf(state.nodeStates), state.nodeStates)), state.events, state.Sight();
    }

    /** One node of the run: passed over, skipped or dispatched. */
    method RunNode(g: Graph, order: seq<NodeId>, k: nat, ghost s: Moment, state: ExecutionState, ghost job: Job)
      returns (r: Step)
      requires Doing(job, g) && Runnable(g, order) && k < |order|
      requires Walking(job, order, k, RunItself, g.nodes.Keys, NestingDepth(g, order, 0), s, Now(state))
      modifies this`tick, this`budget, state
      ensures Doing(job, g)
      ensures r.Ok? ==>
                Walking(job, order, k + 1, RunItself, g.nodes.Keys, NestingDepth(g, order, 0), s, Now(state))
      ensures r.Err? ==> Walked(job, RunItself, NestingDepth(g, order, 0), s, Now(state))
      ensures r.Err? ==> StoppedBy(r.error) || TraceThrew(job, state.events)
    {
      var nodeId := order[k];
      ListedIsNode(g, order, k);
      ghost var t, due, depth := Now(state), g.nodes.Keys, NestingDepth(g, order, 0);
      if Settled(state.nodeStates[nodeId].status) {
        SettledMeansStarted(job, order, k, depth, s, t);
        WalkPasses(job, order, k, RunItself, due, depth, s, t);
        return DONE;
      }
      if !IsControlPathActive(nodeId, g, state.activated, state.deactivated) {
        state.nodeStates := SetStatus(state.nodeStates, nodeId, Skipped);
        WalkMarks(job, order, k, RunItself, due, depth, s, t, Now(state));
        return DONE;
      }
      DispatchableInTurn(job, order, k, RunItself, due, depth, s, t);
      var ready := IsReadyToExecute(nodeId, g, state);
      if !ready {
        // Here the source skips the node as "Dependencies not met"; it never happens.
        assert false;
      }
      NestingDepthBounds(g, order, 0, k);
      r := Dispatch(g, order, k, state, job, RunItself, due, depth, s);
    }
  }

  // ----- the scope -----

  lemma BindsStill(s0: Bindings, s1: Bindings, s2: Bindings, names: set<string>)
    requires OnlyBinds(s0, s1, names) && OnlyBinds(s1, s2, names)
    ensures OnlyBinds(s0, s2, names)
  {
  }

  /** Apart from `names`, the bindings are unchanged. */
  ghost predicate OnlyBinds(s0: Bindings, s1: Bindings, names: set<string>) {
    forall x :: x !in names ==> (x in s1 <==> x in s0) && (x in s0 ==> s1[x] == s0[x])
  }
}
