/** The pipeline graph: nodes and edges kept in insertion order, as the source's Maps keep them. */
module PipelineGraph {
  import opened Common
  import opened Digraph
  import opened DataValues

  type NodeId = string
  type EdgeId = string

  datatype NodeKind =
    | Input | Output | Query | Transform | Llm | Http | Write
    | Conditional | Loop | Merge | Parallel
    | OtherKind(name: string)

  datatype ErrorPolicy = FailPolicy | SkipPolicy | RetryPolicy | FallbackPolicy

  datatype LoopMode = ForEach | While
  datatype Accumulator = Collect | MergeRows | Reduce(initial: Value)

  /** The part of a loop payload the scheduler reads; an absent variable name is "". */
  datatype LoopPayload = LoopPayload(
    mode: LoopMode, iterVar: string, indexVar: string, maxIterations: int, accumulator: Accumulator)

  datatype Node = Node(
    kind: NodeKind, policy: ErrorPolicy, maxRetries: int, loop: LoopPayload, waitForAll: bool)

  datatype EdgeKind = Data | Control
  datatype Condition = OnTrue | OnFalse | Always | OnError

  /** `condition` is read on control edges only; an absent key is "". */
  datatype Edge = Edge(
    id: EdgeId, from: NodeId, to: NodeId, kind: EdgeKind, condition: Condition, inputKey: string)

  /** `nodeIds` and `edges` list the Maps' keys and values in insertion order. */
  datatype Graph = Graph(
    nodeIds: seq<NodeId>, nodes: map<NodeId, Node>, edges: seq<Edge>,
    entryNode: NodeId, exitNodes: seq<NodeId>)

  ghost predicate DistinctIds(edges: seq<Edge>) {
    forall i, j :: 0 <= i < j < |edges| ==> edges[i].id != edges[j].id
  }

  /** What being two Maps, keyed by the ids the values carry, means. */
  ghost predicate WellKeyed(g: Graph) {
    && NoDup(g.nodeIds)
    && Elems(g.nodeIds) == g.nodes.Keys
    && DistinctIds(g.edges)
  }

  ghost predicate ValidEndpoints(g: Graph) {
    forall e :: e in g.edges ==> e.from in g.nodes && e.to in g.nodes
  }

  function IsData(e: Edge): bool {
    e.kind.Data?
  }

  function DataEdges(g: Graph): seq<Edge> {
    Filter(g.edges, IsData)
  }

  function IncomingData(g: Graph, n: NodeId): seq<Edge> {
    Filter(g.edges, (e: Edge) => e.to == n && e.kind.Data?)
  }

  function OutgoingData(g: Graph, n: NodeId): seq<Edge> {
    Filter(g.edges, (e: Edge) => e.from == n && e.kind.Data?)
  }

  function IncomingControl(g: Graph, n: NodeId): seq<Edge> {
    Filter(g.edges, (e: Edge) => e.to == n && e.kind.Control?)
  }

  function OutgoingControl(g: Graph, n: NodeId): seq<Edge> {
    Filter(g.edges, (e: Edge) => e.from == n && e.kind.Control?)
  }

  function EdgePairs(edges: seq<Edge>): Rel<NodeId> {
    if edges == [] then {} else {(edges[0].from, edges[0].to)} + EdgePairs(edges[1..])
  }

  lemma {:induction false} EdgeIsPair(edges: seq<Edge>, e: Edge)
    requires e in edges
    ensures (e.from, e.to) in EdgePairs(edges)
  {
    if e != edges[0] {
      EdgeIsPair(edges[1..], e);
    }
  }

  lemma {:induction false} PairIsEdge(edges: seq<Edge>, a: NodeId, b: NodeId) returns (e: Edge)
    requires (a, b) in EdgePairs(edges)
    ensures e in edges && e.from == a && e.to == b
  {
    if (a, b) == (edges[0].from, edges[0].to) {
      e := edges[0];
    } else {
      e := PairIsEdge(edges[1..], a, b);
    }
  }

  /** The data-flow relation: the only edges execution order looks at. */
  function DataRel(g: Graph): Rel<NodeId> {
    EdgePairs(DataEdges(g))
  }

  lemma DataEdgeInRel(g: Graph, e: Edge)
    requires e in g.edges && e.kind.Data?
    ensures (e.from, e.to) in DataRel(g)
  {
    EdgeIsPair(DataEdges(g), e);
  }

  lemma DataRelEdge(g: Graph, a: NodeId, b: NodeId) returns (e: Edge)
    requires (a, b) in DataRel(g)
    ensures e in g.edges && e.kind.Data? && e.from == a && e.to == b
  {
    e := PairIsEdge(DataEdges(g), a, b);
  }

  lemma RelInsideNodes(g: Graph)
    requires ValidEndpoints(g)
    ensures forall e :: e in DataRel(g) ==> e.0 in g.nodes && e.1 in g.nodes
  {
    forall p | p in DataRel(g) ensures p.0 in g.nodes && p.1 in g.nodes {
      var e := DataRelEdge(g, p.0, p.1);
    }
  }

  ghost predicate IsTopologicalOrder(g: Graph, order: seq<NodeId>) {
    && NoDup(order)
    && Elems(order) == g.nodes.Keys
    && PredecessorsFirst(DataRel(g), order)
  }

  lemma TopologicalOrderMeansAcyclic(g: Graph, order: seq<NodeId>)
    requires ValidEndpoints(g) && IsTopologicalOrder(g, order)
    ensures Acyclic(DataRel(g))
  {
    RelInsideNodes(g);
    assert forall n :: n in order <==> n in Elems(order);
    OrderedIsAcyclic(DataRel(g), order);
  }

  lemma SameIdSameEdge(g: Graph, e: Edge, f: Edge)
    requires WellKeyed(g) && e in g.edges && f in g.edges && e.id == f.id
    ensures e == f
  {
  }
}
