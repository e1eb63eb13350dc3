/** What the scheduler asks of a graph, which nodes a loop iteration runs, and how deeply
    loops nest. */
module RunGraph {
  import opened Common
  import opened Digraph
  import opened PipelineGraph
  import opened ExecutionBudget
  import opened LoopHelpers
  import opened LoopBody

  /** The scheduler steps around its own ordering for these two features. */
  ghost predicate Supported(g: Graph) {
    forall n :: n in g.nodes ==> g.nodes[n].kind != Parallel && g.nodes[n].policy != FallbackPolicy
  }

  ghost predicate Runnable(g: Graph, order: seq<NodeId>) {
    WellKeyed(g) && ValidEndpoints(g) && IsTopologicalOrder(g, order) && Supported(g)
  }

  /** Each data predecessor is completed or skipped. */
  ghost predicate Ready(g: Graph, n: NodeId, states: NodeStates) {
    forall a :: (a, n) in DataRel(g) ==> a in states && Settled(states[a].status)
  }

  // ----- loop bodies -----

  function FirstTarget(g: Graph, l: NodeId): Option<NodeId> {
    var out := OutgoingData(g, l);
    if out == [] then None else Some(out[0].to)
  }

  /** The part of a loop body an iteration walks: what the first body edge leads to. */
  ghost predicate InRunBody(g: Graph, l: NodeId, x: NodeId) {
    x in BodyOf(g, l) && FirstTarget(g, l).Some? && Reaches(DataRel(g), FirstTarget(g, l).value, x)
  }

  /** `x` takes its data from the loop and from what an iteration runs, and nowhere else. */
  ghost predicate SelfFed(g: Graph, l: NodeId, x: NodeId) {
    forall a :: (a, x) in DataRel(g) ==> a == l || InRunBody(g, l, a)
  }

  predicate IsLoop(g: Graph, n: NodeId) {
    n in g.nodes && g.nodes[n].kind == Loop
  }

  /** How many iterations a loop may make. */
  function LoopCap(node: Node, maxIterations: int): nat {
    Max(0, Min(node.loop.maxIterations, maxIterations))
  }

  // ----- nesting -----

  /** How many loops deep the node at position `i` of the order nests: 0 for a node that is
      no loop, and one more than the deepest node of its body for a loop. */
  ghost function Depth(g: Graph, order: seq<NodeId>, i: nat): nat
    requires i < |order|
    decreases |order| - i, |order| + 1
  {
    if IsLoop(g, order[i]) then 1 + DeepestIn(g, order, BodyOf(g, order[i]), i, i + 1) else 0
  }

  ghost function DeepestIn(g: Graph, order: seq<NodeId>, body: set<NodeId>, i: nat, j: nat): nat
    requires i < j <= |order|
    decreases |order| - i, |order| - j
  {
    if j == |order| then 0
    else Max(if order[j] in body then Depth(g, order, j) else 0, DeepestIn(g, order, body, i, j + 1))
  }

  /** The nesting depth of the whole graph. */
  ghost function NestingDepth(g: Graph, order: seq<NodeId>, j: nat): nat
    requires j <= |order|
    decreases |order| - j
  {
    if j == |order| then 0 else Max(Depth(g, order, j), NestingDepth(g, order, j + 1))
  }

  lemma {:induction false} DeepestInBounds(g: Graph, order: seq<NodeId>, body: set<NodeId>, i: nat, j: nat, k: nat)
    requires i < j <= k < |order| && order[k] in body
    ensures Depth(g, order, k) <= DeepestIn(g, order, body, i, j)
    decreases k - j
  {
    if j < k {
      DeepestInBounds(g, order, body, i, j + 1, k);
    }
  }

  lemma {:induction false} NestingDepthBounds(g: Graph, order: seq<NodeId>, j: nat, k: nat)
    requires j <= k < |order|
    ensures Depth(g, order, k) <= NestingDepth(g, order, j)
    decreases k - j
  {
    if j < k {
      NestingDepthBounds(g, order, j + 1, k);
    }
  }

  /** The counters only grow; LLM calls stay within their cap, and iterations exceed
      theirs by less than the nesting depth. */
  ghost predicate Spent(b0: Budget, b1: Budget, depth: nat) {
    && SameLimits(b0, b1)
    && b0.llmCallsUsed <= b1.llmCallsUsed <= Max(b0.llmCallsUsed, b0.maxLLMCalls)
    && b0.iterationsUsed <= b1.iterationsUsed <= Max(b0.iterationsUsed, b0.maxIterations + depth - 1)
  }

  lemma SpentTrans(b0: Budget, b1: Budget, b2: Budget, d: nat, e: nat)
    requires Spent(b0, b1, d) && Spent(b1, b2, e) && e <= d
    ensures Spent(b0, b2, d)
  {
  }
}
