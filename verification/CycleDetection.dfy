/** The compiler's depth-first cycle check over the dependencies of the steps. */
module CycleDetection {
  import opened Common
  import opened Digraph

  type StepId = string

  /** `deps[s]` lists what `s` depends on; names that are no step may occur in the lists. */
  type Dependencies = map<StepId, seq<StepId>>

  /** The pairs (dependency, dependent). */
  ghost function Needs(deps: Dependencies): (r: Rel<StepId>)
    ensures forall a, b :: (a, b) in r <==> b in deps && a in deps[b]
  {
    set b, a | b in deps && a in deps[b] :: (a, b)
  }

  ghost function Mentioned(deps: Dependencies): set<StepId> {
    deps.Keys + set b, a | b in deps && a in deps[b] :: a
  }

  class CycleDetector {
    const deps: Dependencies
    var visited: set<StepId>
    var recursionStack: set<StepId>
    var errors: seq<StepId>
    ghost var finished: seq<StepId>

    constructor (deps: Dependencies)
      ensures this.deps == deps && visited == {} && recursionStack == {} && errors == [] && finished == []
    {
      this.deps := deps;
      visited, recursionStack, errors, finished := {}, {}, [], [];
    }

    /** `path` lists the recursion stack, innermost first: a path of the relation.  Without
        an error so far the finished steps are listed dependencies first; with one there
        is a cycle. */
    ghost predicate Searching(path: seq<StepId>)
      reads this
    {
      && NoDup(path) && recursionStack == Elems(path) && (path != [] ==> IsPath(Needs(deps), path))
      && NoDup(finished) && visited == Elems(finished) + recursionStack && Elems(finished) !! recursionStack
      && visited <= Mentioned(deps)
      && (errors == [] ==> PredecessorsFirst(Needs(deps), finished))
      && (errors != [] ==> !Acyclic(Needs(deps)))
    }

    method Visit(stepId: StepId, ghost path: seq<StepId>)
      requires Searching(path) && stepId in Mentioned(deps)
      requires path != [] ==> (stepId, path[0]) in Needs(deps)
      modifies this
      decreases Mentioned(deps) - visited, 0
      ensures Searching(path)
      ensures old(visited) <= visited && old(finished) <= finished && old(errors) <= errors
      ensures errors == [] ==> stepId in finished
    {
      if stepId in recursionStack {
        ClosesCycle(Needs(deps), path, stepId);
        errors := errors + [stepId];
        return;
      }
      if stepId in visited {
        return;
      }
      visited := visited + {stepId};
      recursionStack := recursionStack + {stepId};
      EnterKeepsPath(deps, path, stepId);
      if stepId in deps {
        VisitDependencies(stepId, [stepId] + path);
      }
      recursionStack := recursionStack - {stepId};
      FinishKeepsOrder(deps, finished, stepId);
      finished := finished + [stepId];
    }

    method VisitDependencies(stepId: StepId, ghost path: seq<StepId>)
      requires stepId in deps && path != [] && path[0] == stepId && Searching(path)
      modifies this
      decreases Mentioned(deps) - visited, 1
      ensures Searching(path)
      ensures old(visited) <= visited && old(finished) <= finished && old(errors) <= errors
      ensures errors == [] ==> forall a :: a in deps[stepId] ==> a in finished
    {
      for k := 0 to |deps[stepId]|
        invariant Searching(path)
        invariant old(visited) <= visited && old(finished) <= finished && old(errors) <= errors
        invariant errors == [] ==> forall j :: 0 <= j < k ==> deps[stepId][j] in finished
      {
        assert (deps[stepId][k], stepId) in Needs(deps);
        Visit(deps[stepId][k], path);
      }
    }
  }

  lemma EnterKeepsPath(deps: Dependencies, path: seq<StepId>, id: StepId)
    requires path != [] ==> IsPath(Needs(deps), path) && (id, path[0]) in Needs(deps)
    ensures IsPath(Needs(deps), [id] + path)
    ensures Elems([id] + path) == {id} + Elems(path)
  {
  }

  lemma ClosesCycle(r: Rel<StepId>, path: seq<StepId>, id: StepId)
    requires path != [] && IsPath(r, path) && (id, path[0]) in r && id in path
    ensures !Acyclic(r)
  {
    var k :| 0 <= k < |path| && path[k] == id;
    var cycle := [id] + path[..k + 1];
    forall i | 0 < i < |cycle| ensures (cycle[i - 1], cycle[i]) in r {
      if i > 1 {
        assert (path[i - 2], path[i - 1]) in r;
      }
    }
    assert IsCycle(r, cycle);
  }

  lemma FinishKeepsOrder(deps: Dependencies, finished: seq<StepId>, id: StepId)
    ensures PredecessorsFirst(Needs(deps), finished) &&
            (id in deps ==> forall a :: a in deps[id] ==> a in finished) ==>
              PredecessorsFirst(Needs(deps), finished + [id])
    ensures Elems(finished + [id]) == Elems(finished) + {id}
  {
    var longer := finished + [id];
    if PredecessorsFirst(Needs(deps), finished) && (id in deps ==> forall a :: a in deps[id] ==> a in finished) {
      forall a, j: nat | j < |longer| && (a, longer[j]) in Needs(deps) ensures a in longer[..j] {
        if j < |finished| {
          assert longer[..j] == finished[..j] && longer[j] == finished[j];
        } else {
          assert longer[..j] == finished;
        }
      }
    }
  }

  /** The check reports an error exactly when the dependencies contain a cycle, whether or
      not every name in them is a step. */
  method DetectCycles(steps: seq<StepId>, deps: Dependencies) returns (errors: seq<StepId>)
    requires Elems(steps) == deps.Keys
    ensures errors == [] <==> Acyclic(Needs(deps))
  {
    var detector := new CycleDetector(deps);
    for k := 0 to |steps|
      invariant detector.deps == deps && detector.Searching([])
      invariant detector.errors == [] ==> forall j :: 0 <= j < k ==> steps[j] in detector.finished
    {
      assert steps[k] in Elems(steps);
      detector.Visit(steps[k], []);
    }
    errors := detector.errors;
    if errors == [] {
      forall e | e in Needs(deps) ensures e.1 in detector.finished {
        assert (e.0, e.1) in Needs(deps);
        assert e.1 in Elems(steps);
      }
      OrderedIsAcyclic(Needs(deps), detector.finished);
    }
  }
}
