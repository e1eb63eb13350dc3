/** From intent to run: what compiles is schedulable, and what a run of a compiled graph
    says about branches. */
module CompiledRuns {
  import opened Common
  import opened Digraph
  import opened DataValues
  import opened PipelineGraph
  import opened GraphUtils
  import opened PipelineCompiler
  import opened CompiledGraphs
  import opened LoopHelpers
  import opened LoopBody
  import opened NodeResults
  import opened RunGraph
  import opened RunTrace
  import opened RunEnd
  import opened RunFacts
  import opened Scheduler

  /** When a node of a compiled graph is dispatched, a control edge into it that is still
      undecided comes from a conditional that has not been dispatched in that state, and is
      settled there without: marked in the body of a loop, or cut off in its turn. */
  lemma UndecidedMeansNotEvaluated(steps: Steps, job: Job, place: Place, before: Trace, e: Event, x: Edge)
    requires ValidIntent(steps) && NoCollision(steps) && job.g == CompiledGraph(steps)
    requires EventSound(job, place, before, e) && (place.IterationOf? ==> SelfFed(job.g, place.loop, e.node))
    requires x in job.g.edges && x.kind.Control? && x.to == e.node
    requires x.id !in e.at.activated && x.id !in e.at.deactivated
    ensures !Dispatched(before, x.from)
    ensures x.from in e.at.states
    ensures if Consumed(job.g, before, x.from) then e.at.states[x.from] == CONSUMED
            else e.at.states[x.from] == PASSED_OVER && !Permitted(job.g, before, e.at, x.from)
  {
    ControlEdgesHaveTwins(steps, x);
    ControlComesFromConditionals(steps, x);
    CompiledNodes(steps);
    EdgeStandsAsDecided(job, place, before, e.at, x);
    assert Explained(job.g, place, before, e.at, x.from);
  }

  /** In an iteration of a loop of a compiled graph whose inner loops keep to its body, a
      dispatch finds its predecessors settled if and only if it is self-fed. */
  lemma CompiledReadyJustWhenSelfFed(steps: Steps, job: Job, l: NodeId, item: DataValue, before: Trace, e: Event)
    requires ValidIntent(steps) && NoCollision(steps) && NoReservedNames(steps) && job.g == CompiledGraph(steps)
    requires NestedBodies(job.g, l)
    requires TraceSound(job, IterationOf(l, item), before) && EventSound(job, IterationOf(l, item), before, e)
    ensures Ready(job.g, e.node, e.at.states) <==> SelfFed(job.g, l, e.node)
  {
    CompiledNodes(steps);
    CompiledEnds(steps);
    forall x | x in job.g.edges && x.kind.Control? ensures (x.from, x.to) in DataRel(job.g) {
      ControlEdgesHaveTwins(steps, x);
    }
    ReadyJustWhenSelfFed(job, l, item, before, e);
  }

  /** A step that depends on a loop counts as part of its body, whatever else feeds it: once
      the loop has returned, it is marked completed without an output, and is not dispatched
      in the state the loop ran in. */
  lemma StepsAfterALoopAreItsBody(
    steps: Steps, t: PipelineCompiler.Step, job: Job, place: Place, events: Trace, v: View, k: nat)
    requires ValidIntent(steps) && NoCollision(steps) && NoReservedNames(steps) && job.g == CompiledGraph(steps)
    requires TraceSound(job, place, events) && Tracks(job, place, events, v)
    requires k < |events| && IsLoop(job.g, events[k].node) && t in steps && events[k].node in t.dependsOn
    ensures t.id in BodyOf(job.g, events[k].node)
    ensures t.id in v.states && v.states[t.id] == CONSUMED
    ensures forall j :: k < j < |events| ==> events[j].node != t.id
  {
    var l := events[k].node;
    assert Feeds(t, l, t.id);
    DataFlowExact(steps, l, t.id);
    CompiledEnds(steps);
    var x := DataRelEdge(CompiledGraph(steps), l, t.id);
    TargetIsInBody(CompiledGraph(steps), l, x);
    assert Consumes(job.g, events[k], t.id);
    assert Consumed(job.g, events, t.id);
    forall j | k < j < |events| ensures events[j].node != t.id {
      BodyNeverRunsAgain(job, place, events, k, j);
    }
  }

  /** Distinct edge names, unreserved step names, at least one step, known node kinds. */
  ghost predicate Orderly(steps: Steps, registry: set<NodeKind>) {
    steps != [] && NoCollision(steps) && NoReservedNames(steps) && KnowsCompiledKinds(registry)
  }

  /** Compiles an intent without parallel steps and runs its graph.  Whatever the names, the
      run is safe or refused; an orderly intent is refused exactly when its steps' relations
      have a cycle or some step is fed by nothing; and a run that returns has each node
      settled for a reason its trace gives. */
  method CompileAndRun(steps: Steps, scheduler: Scheduler)
    returns (errors: seq<IntentError>, r: Result<ExecutionResult, RunFailure>,
             ghost order: seq<NodeId>, ghost trace: Trace, ghost end: View)
    requires forall s :: s in steps ==> s.kind != ParallelStep
    modifies scheduler
    ensures errors == [] <==> ValidIntent(steps)
    ensures errors == [] && Orderly(steps, scheduler.registry) ==>
              (r.Err? && r.error.Refused? <==> !(Acyclic(StepRel(steps)) && forall s :: s in steps ==> Fed(steps, s)))
    ensures errors != [] ==> r == Err(Refused([]))
    ensures var job := Job(CompiledGraph(steps), scheduler.world, old(scheduler.budget).maxIterations);
      && (!(r.Err? && r.error.Refused?) ==> SafeRun(job, order, trace, old(scheduler.budget), scheduler.budget))
      && (r.Ok? ==> FinishedRun(job, trace, end, r.value))
  {
    order, trace, end := [], [], View(map[], {}, {});
    var g;
    g, errors := Compile(steps);
    if errors != [] {
      return errors, Err(Refused([])), order, trace, end;
    }
    CompiledIsSupported(steps);
    if Orderly(steps, scheduler.registry) {
      CompiledIsStructural(steps, scheduler.registry);
    }
    r, order, trace, end := scheduler.Run(g);
  }
}
