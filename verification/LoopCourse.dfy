/** The iterations of one loop, step by step. */
module LoopCourse {
  import opened Common
  import opened Digraph
  import opened DataValues
  import opened PipelineGraph
  import opened LoopHelpers
  import opened LoopBody
  import opened ExecutionBudget
  import opened Host
  import opened NodeResults
  import opened RunGraph
  import opened RunTrace

  /** Every dispatch inside the iterations is sound. */
  ghost predicate SoundInside(job: Job, l: NodeId, its: seq<Iteration>) {
    forall k {:trigger its[k]} :: 0 <= k < |its| ==> TraceSound(job, IterationOf(l, its[k].item), its[k].events)
  }

  /** Each iteration that has ended has run the body. */
  ghost predicate FinishedWell(job: Job, l: NodeId, its: seq<Iteration>)
    requires IsLoop(job.g, l)
  {
    forall k :: 0 <= k < |its| && its[k].ended.Some? ==> Finished(job, l, its[k])
  }

  ghost predicate AllFinished(its: seq<Iteration>) {
    forall k :: 0 <= k < |its| ==> its[k].ended.Some?
  }

  /** What the iterations of a loop do, as far as they have come. */
  ghost predicate Iterated(
    job: Job, at: View, l: NodeId, tick: nat, its: seq<Iteration>, b0: Budget, b1: Budget, depth: nat)
    requires IsLoop(job.g, l)
  {
    && Course(job, at, l, tick, its) && SoundInside(job, l, its)
    && Spent(b0, b1, depth) && b1.iterationsUsed == b0.iterationsUsed + IterationsOf(its)
  }

  /** The loop can go on: nothing has thrown, and the next consultation follows the last
      iteration. */
  ghost predicate Going(
    job: Job, at: View, l: NodeId, tick: nat, its: seq<Iteration>, b0: Budget, b1: Budget, depth: nat, now: nat)
    requires IsLoop(job.g, l)
  {
    && Iterated(job, at, l, tick, its, b0, b1, depth) && AllFinished(its)
    && now == TickAfter(job.g.nodes[l].loop.mode, tick, its, |its|) && tick <= now
  }

  /** One turn: an iteration and what it does to the budget. */
  ghost predicate Turned(job: Job, l: NodeId, it: Iteration, b0: Budget, b1: Budget, depth: nat)
    requires IsLoop(job.g, l)
  {
    && SoundInside(job, l, [it]) && FinishedWell(job, l, [it])
    && Spent(b0, b1, depth) && b1.iterationsUsed == b0.iterationsUsed + IterationsOf([it])
  }

  /** The last iteration threw, or the reducer after it. */
  ghost predicate LastThrew(job: Job, l: NodeId, its: seq<Iteration>, done: nat)
    requires IsLoop(job.g, l)
  {
    && its != [] && its[|its| - 1].ended.None?
    && (TraceThrew(job, its[|its| - 1].events) || ReducerThrew(job, job.g.nodes[l], done))
  }

  /** The condition of a while loop threw, or was no boolean. */
  ghost predicate ConditionThrew(job: Job, l: NodeId, tick: nat, its: seq<Iteration>)
    requires IsLoop(job.g, l)
  {
    && job.g.nodes[l].loop.mode == While && |its| < LoopCap(job.g.nodes[l], job.maxIterations)
    && NoBoolean(job.world.evaluate(TickAfter(While, tick, its, |its|)))
  }

  lemma CourseSnoc(job: Job, at: View, l: NodeId, tick: nat, its: seq<Iteration>, it: Iteration)
    requires IsLoop(job.g, l) && Course(job, at, l, tick, its) && AllFinished(its)
    requires Due(job, at, l, tick, its + [it], |its|)
    requires it.ended.Some? ==> Finished(job, l, it)
    ensures Course(job, at, l, tick, its + [it])
  {
    var longer := its + [it];
    forall k | 0 <= k < |longer| ensures Due(job, at, l, tick, longer, k) {
      if k < |its| {
        assert Due(job, at, l, tick, its, k) && longer[k] == its[k];
        assert k > 0 ==> longer[k - 1] == its[k - 1];
      }
    }
  }

  lemma TurnCounted(its: seq<Iteration>, it: Iteration)
    ensures IterationsOf(its + [it]) == IterationsOf(its) + IterationsOf([it])
  {
    OneMoreIteration(its, it);
    OneMoreIteration([], it);
    assert [] + [it] == [it];
  }

  /** After these iterations, another over this item may start at this consultation. */
  ghost predicate NextIsDue(
    job: Job, at: View, l: NodeId, tick: nat, its: seq<Iteration>, item: DataValue, started: nat)
    requires IsLoop(job.g, l)
  {
    var node := job.g.nodes[l];
    var now := TickAfter(node.loop.mode, tick, its, |its|);
    && |its| < LoopCap(node, job.maxIterations)
    && match node.loop.mode
       case ForEach =>
         && job.world.iterable(tick).Returns?
         && |its| < |ToIterable(job.world.iterable(tick).value)|
         && item == ToIterable(job.world.iterable(tick).value)[|its|] && started == now
       case While =>
         && job.world.evaluate(now) == Returns(Bool(true))
         && item == WhileInput(NodeInputs(l, job.g, at.states)) && started == now + 1
  }

  lemma NextMadeIsDue(job: Job, at: View, l: NodeId, tick: nat, its: seq<Iteration>, it: Iteration)
    requires IsLoop(job.g, l) && NextIsDue(job, at, l, tick, its, it.item, it.started)
    ensures Due(job, at, l, tick, its + [it], |its|)
    ensures it.ended.Some? ==> TickAfter(job.g.nodes[l].loop.mode, tick, its + [it], |its| + 1) == it.ended.value
  {
    assert |its| > 0 ==> (its + [it])[|its| - 1] == its[|its| - 1];
  }

  /** A turn that was due goes on top of the iterations before it. */
  lemma IteratesOn(
    job: Job, at: View, l: NodeId, tick: nat, its: seq<Iteration>, it: Iteration,
    b0: Budget, b1: Budget, b2: Budget, depth: nat)
    requires IsLoop(job.g, l) && Iterated(job, at, l, tick, its, b0, b1, depth) && AllFinished(its)
    requires Due(job, at, l, tick, its + [it], |its|) && Turned(job, l, it, b1, b2, depth)
    ensures Iterated(job, at, l, tick, its + [it], b0, b2, depth)
    ensures it.ended.Some? ==> AllFinished(its + [it])
  {
    assert [it][0] == it;
    CourseSnoc(job, at, l, tick, its, it);
    SpentTrans(b0, b1, b2, depth, depth);
    TurnCounted(its, it);
    var longer := its + [it];
    forall k | 0 <= k < |longer| ensures TraceSound(job, IterationOf(l, longer[k].item), longer[k].events) {
      if k < |its| {
        assert longer[k] == its[k];
      }
    }
  }

  lemma OneIsSound(job: Job, l: NodeId, it: Iteration)
    requires IsLoop(job.g, l) && TraceSound(job, IterationOf(l, it.item), it.events)
    requires it.ended.Some? ==> Finished(job, l, it)
    ensures SoundInside(job, l, [it]) && FinishedWell(job, l, [it])
  {
  }

  lemma CountOne(it: Iteration)
    ensures IterationsOf([it]) == IterationsIn(it.events) + if it.ended.Some? then 1 else 0
  {
    OneMoreIteration([], it);
    assert [] + [it] == [it];
  }

  /** A body has been run in a fork, or has thrown there; nothing is accumulated yet. */
  ghost predicate BodyRan(job: Job, l: NodeId, it: Iteration, b0: Budget, b1: Budget, depth: nat, ran: nat, ok: bool)
    requires IsLoop(job.g, l)
  {
    && it.ended.None? && TraceSound(job, IterationOf(l, it.item), it.events) && Timed(it.events, it.started, ran)
    && Spent(b0, b1, depth) && b1.iterationsUsed == b0.iterationsUsed + IterationsIn(it.events)
    && (ok ==> IterationMade(job, l, it.item, it.events, it.view) && b0.iterationsUsed < b0.maxIterations)
  }

  /** A turn whose body, or reducer, has thrown. */
  lemma TurnThrows(job: Job, l: NodeId, it: Iteration, b0: Budget, b1: Budget, depth: nat, ran: nat, ok: bool)
    requires IsLoop(job.g, l) && depth > 0 && BodyRan(job, l, it, b0, b1, depth - 1, ran, ok)
    ensures Turned(job, l, it, b0, b1, depth)
  {
    CountOne(it);
    OneIsSound(job, l, it);
  }

  /** A turn that is counted. */
  lemma TurnFinishes(
    job: Job, l: NodeId, half: Iteration, it: Iteration, b0: Budget, b1: Budget, b2: Budget, depth: nat, ran: nat)
    requires IsLoop(job.g, l) && depth > 0 && BodyRan(job, l, half, b0, b1, depth - 1, ran, true)
    requires it == half.(ended := it.ended, reduced := it.reduced)
    requires it.ended == Some(ran + if job.g.nodes[l].loop.accumulator.Reduce? then 1 else 0)
    requires job.g.nodes[l].loop.accumulator.Reduce? ==> job.world.evaluate(ran) == Returns(it.reduced)
    requires b2 == b1.(iterationsUsed := b1.iterationsUsed + 1)
    ensures Turned(job, l, it, b0, b2, depth)
  {
    CountOne(it);
    assert Timed(it.events, it.started, it.ended.value);
    OneIsSound(job, l, it);
  }

  /** The accumulator after one more turn. */
  lemma TurnAccumulates(g: Graph, a: Accumulator, body: seq<NodeId>, its: seq<Iteration>, it: Iteration)
    ensures Accumulated(a, Turns(g, body, its + [it])) ==
            UpdateAccumulator(a, Accumulated(a, Turns(g, body, its)), SubgraphOutput(body, g, it.view.states), it.reduced)
  {
    var longer := Turns(g, body, its + [it]);
    assert longer[..|longer| - 1] == Turns(g, body, its);
    assert longer[|longer| - 1] == (SubgraphOutput(body, g, it.view.states), it.reduced);
  }

  /** A turn that was due, on top of those before it. */
  lemma TurnGoesOn(
    job: Job, at: View, l: NodeId, tick: nat, its: seq<Iteration>, it: Iteration,
    b0: Budget, b1: Budget, b2: Budget, depth: nat, now: nat)
    requires IsLoop(job.g, l)
    requires Going(job, at, l, tick, its, b0, b1, depth, now) && Turned(job, l, it, b1, b2, depth)
    requires NextIsDue(job, at, l, tick, its, it.item, it.started)
    ensures Iterated(job, at, l, tick, its + [it], b0, b2, depth)
    ensures it.ended.Some? && now <= it.ended.value ==>
              Going(job, at, l, tick, its + [it], b0, b2, depth, it.ended.value)
  {
    NextMadeIsDue(job, at, l, tick, its, it);
    IteratesOn(job, at, l, tick, its, it, b0, b1, b2, depth);
  }
}
