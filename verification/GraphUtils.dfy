/** Graph analysis: Kahn's sort, structural validation, control-path activation
    and the search for the nodes of an inactive branch. */
module GraphUtils {
  import opened Common
  import opened Digraph
  import opened PipelineGraph

  // ----- Kahn's sort -----

  function CountTo(es: seq<Edge>, n: NodeId): nat {
    if es == [] then 0 else (if es[0].to == n then 1 else 0) + CountTo(es[1..], n)
  }

  /** Edges into `n` whose source is not done yet. */
  function Waiting(es: seq<Edge>, done: set<NodeId>, n: NodeId): nat {
    if es == [] then 0
    else (if es[0].to == n && es[0].from !in done then 1 else 0) + Waiting(es[1..], done, n)
  }

  function FromNode(es: seq<Edge>, x: NodeId): seq<Edge> {
    Filter(es, (e: Edge) => e.from == x)
  }

  lemma {:induction false} WaitingAtStart(es: seq<Edge>, n: NodeId)
    ensures Waiting(es, {}, n) == CountTo(es, n)
  {
    if es != [] { WaitingAtStart(es[1..], n); }
  }

  /** Finishing `x` takes exactly its own outgoing edges off the count of `n`. */
  lemma {:induction false} WaitingSplit(es: seq<Edge>, done: set<NodeId>, x: NodeId, n: NodeId)
    requires x !in done
    ensures Waiting(es, done, n) == Waiting(es, done + {x}, n) + CountTo(FromNode(es, x), n)
  {
    if es != [] {
      WaitingSplit(es[1..], done, x, n);
      var p := (e: Edge) => e.from == x;
      if es[0].from == x {
        assert Filter(es, p) == [es[0]] + Filter(es[1..], p);
        assert FromNode(es, x)[1..] == FromNode(es[1..], x);
      }
    }
  }

  lemma {:induction false} NoneWaiting(es: seq<Edge>, done: set<NodeId>, n: NodeId, e: Edge)
    requires Waiting(es, done, n) == 0 && e in es && e.to == n
    ensures e.from in done
  {
    if e != es[0] {
      NoneWaiting(es[1..], done, n, e);
    }
  }

  lemma {:induction false} SomeWaiting(es: seq<Edge>, done: set<NodeId>, n: NodeId) returns (e: Edge)
    requires Waiting(es, done, n) > 0
    ensures e in es && e.to == n && e.from !in done
  {
    if es[0].to == n && es[0].from !in done {
      e := es[0];
    } else {
      e := SomeWaiting(es[1..], done, n);
    }
  }

  function Degree(inDegree: map<NodeId, int>, n: NodeId): int {
    if n in inDegree then inDegree[n] else 0
  }

  method InitialDegrees(g: Graph, data: seq<Edge>) returns (inDegree: map<NodeId, int>)
    requires data == DataEdges(g)
    ensures inDegree.Keys == Elems(g.nodeIds) + (set e | e in data :: e.to)
    ensures forall n :: n in inDegree ==> inDegree[n] == Waiting(data, {}, n)
  {
    inDegree := map[];
    for i := 0 to |g.nodeIds|
      invariant inDegree.Keys == Elems(g.nodeIds[..i])
      invariant forall n :: n in inDegree ==> inDegree[n] == 0
    {
      inDegree := inDegree[g.nodeIds[i] := 0];
      assert g.nodeIds[..i + 1] == g.nodeIds[..i] + [g.nodeIds[i]];
    }
    assert g.nodeIds[..|g.nodeIds|] == g.nodeIds;
    for i := 0 to |data|
      invariant inDegree.Keys == Elems(g.nodeIds) + (set e | e in data[..i] :: e.to)
      invariant forall n :: Degree(inDegree, n) + CountTo(data[i..], n) == CountTo(data, n)
    {
      inDegree := inDegree[data[i].to := Degree(inDegree, data[i].to) + 1];
      assert data[..i + 1] == data[..i] + [data[i]];
      assert data[i..][0] == data[i] && data[i..][1..] == data[i + 1..];
    }
    assert data[..|data|] == data;
    forall n | n in inDegree ensures inDegree[n] == Waiting(data, {}, n) {
      WaitingAtStart(data, n);
    }
  }

  lemma CountToStep(es: seq<Edge>, j: nat)
    requires j < |es|
    ensures forall n :: CountTo(es[j..], n) == (if es[j].to == n then 1 else 0) + CountTo(es[j + 1..], n)
  {
    assert es[j..][0] == es[j] && es[j..][1..] == es[j + 1..];
  }

  /** Takes the outgoing edges of the finished node `x` off the in-degrees and
      queues each node whose count reaches zero. */
  method Release(
    data: seq<Edge>, inDegree0: map<NodeId, int>, queue0: seq<NodeId>, done: set<NodeId>, x: NodeId)
    returns (inDegree: map<NodeId, int>, queue: seq<NodeId>)
    requires x !in done
    requires forall e :: e in data ==> e.to in inDegree0
    requires forall n :: n in inDegree0 ==> inDegree0[n] == Waiting(data, done, n)
    requires forall q :: q in queue0 ==> q in inDegree0 && inDegree0[q] == 0
    ensures inDegree.Keys == inDegree0.Keys
    ensures forall n :: n in inDegree ==> inDegree[n] == Waiting(data, done + {x}, n)
    ensures forall q :: q in queue ==> q in inDegree && inDegree[q] == 0
    ensures forall q :: q in queue0 ==> q in queue
    ensures forall n :: n in inDegree && inDegree[n] == 0 && inDegree0[n] != 0 ==> n in queue
  {
    var outgoing := FromNode(data, x);
    ghost var rest := map n | n in inDegree0 :: Waiting(data, done + {x}, n);
    forall n | n in inDegree0 ensures inDegree0[n] == rest[n] + CountTo(outgoing, n) {
      WaitingSplit(data, done, x, n);
    }
    assert forall e :: e in outgoing ==> e in data;
    inDegree, queue := ReleaseEach(outgoing, inDegree0, queue0, rest);
  }

  method ReleaseEach(
    outgoing: seq<Edge>, inDegree0: map<NodeId, int>, queue0: seq<NodeId>, ghost rest: map<NodeId, nat>)
    returns (inDegree: map<NodeId, int>, queue: seq<NodeId>)
    requires rest.Keys == inDegree0.Keys && forall e :: e in outgoing ==> e.to in inDegree0
    requires forall n :: n in inDegree0 ==> inDegree0[n] == rest[n] + CountTo(outgoing, n)
    requires forall q :: q in queue0 ==> q in inDegree0 && inDegree0[q] == 0
    ensures inDegree == rest
    ensures forall q :: q in queue ==> q in inDegree && inDegree[q] == 0
    ensures forall q :: q in queue0 ==> q in queue
    ensures forall n :: n in inDegree && inDegree[n] == 0 && inDegree0[n] != 0 ==> n in queue
  {
    inDegree, queue := inDegree0, queue0;
    assert outgoing[0..] == outgoing;
    for j := 0 to |outgoing|
      invariant Releasing(outgoing[j..], inDegree0, inDegree, rest)
      invariant forall q :: q in queue ==> q in inDegree && inDegree[q] == 0
      invariant forall q :: q in queue0 ==> q in queue
      invariant forall n :: n in inDegree && inDegree[n] == 0 && inDegree0[n] != 0 ==> n in queue
    {
      var to := outgoing[j].to;
      assert outgoing[j] in outgoing;
      CountToStep(outgoing, j);
      assert inDegree[to] > 0;
      var newDegree := Degree(inDegree, to) - 1;
      inDegree := inDegree[to := newDegree];
      if newDegree == 0 {
        queue := queue + [to];
      }
    }
    assert outgoing[|outgoing|..] == [];
  }

  /** The counts with these edges still to be taken off. */
  ghost predicate Releasing(
    left: seq<Edge>, inDegree0: map<NodeId, int>, inDegree: map<NodeId, int>, rest: map<NodeId, nat>)
  {
    && inDegree.Keys == inDegree0.Keys == rest.Keys
    && forall n :: n in inDegree ==> inDegree[n] == rest[n] + CountTo(left, n)
  }

  /** What a sort of a graph with valid endpoints may answer: a total order with
      every data edge going forward or, as the error, exactly the nodes that lie
      on a cycle or downstream of one. */
  ghost predicate CorrectSort(g: Graph, r: Result<seq<NodeId>, seq<NodeId>>) {
    match r
    case Ok(order) => IsTopologicalOrder(g, order) && Acyclic(DataRel(g))
    case Err(cycle) =>
      && cycle != [] && NoDup(cycle)
      && (forall n :: n in cycle <==> n in g.nodes && BehindCycle(DataRel(g), n))
      && !Acyclic(DataRel(g))
  }

  ghost predicate Sorting(
    data: seq<Edge>, inDegree: map<NodeId, int>, queue: seq<NodeId>, order: seq<NodeId>, visited: set<NodeId>)
  {
    && visited == Elems(order) && visited <= inDegree.Keys && NoDup(order)
    && (forall n :: n in inDegree ==> inDegree[n] == Waiting(data, visited, n))
    && (forall q :: q in queue ==> q in inDegree && inDegree[q] == 0)
    && (forall n :: n in inDegree && inDegree[n] == 0 && n !in visited ==> n in queue)
    && PredecessorsFirst(EdgePairs(data), order)
  }

  /** The queue loop of the sort, run until nothing is queued. */
  method SortNodes(g: Graph, data: seq<Edge>) returns (order: seq<NodeId>, ghost inDegree: map<NodeId, int>)
    requires data == DataEdges(g)
    ensures inDegree.Keys == Elems(g.nodeIds) + (set e | e in data :: e.to)
    ensures Sorting(data, inDegree, [], order, Elems(order))
    ensures NoDup(order) && PredecessorsFirst(EdgePairs(data), order)
  {
    var degrees := InitialDegrees(g, data);
    ghost var keys := degrees.Keys;

    // Nodes met only as edge targets have a positive degree, so the node list suffices.
    var queue := Filter(g.nodeIds, n => Degree(degrees, n) == 0);
    OnlyListedNodesAreFree(g, data, degrees);

    order := [];
    var visited: set<NodeId> := {};
    while queue != []
      invariant degrees.Keys == keys
      invariant Sorting(data, degrees, queue, order, visited)
      decreases keys - visited, |queue|
    {
      var nodeId := queue[0];
      queue := queue[1..];
      if nodeId in visited {
        continue;
      }
      degrees, queue, order, visited := Finish(data, degrees, queue, order, visited, nodeId);
    }
    inDegree := degrees;
  }

  /** Kahn's algorithm.  Edges with an endpoint outside the graph are tolerated, as in
      the source, but only graphs without them get a meaningful answer. */
  method TopologicalSort(g: Graph) returns (r: Result<seq<NodeId>, seq<NodeId>>)
    requires WellKeyed(g)
    ensures ValidEndpoints(g) ==> CorrectSort(g, r)
  {
    var data := DataEdges(g);
    var order, inDegree := SortNodes(g, data);
    if |order| != |g.nodeIds| {
      var cycle := Filter(g.nodeIds, n => n !in order);
      FilterNoDup(g.nodeIds, n => n !in order);
      if ValidEndpoints(g) {
        LeftOverIsBehindCycles(g, data, inDegree, order, cycle);
      }
      return Err(cycle);
    }
    if ValidEndpoints(g) {
      AllOrdered(g, data, order);
    }
    return Ok(order);
  }

  /** One turn of the sort: `nodeId` leaves the queue and joins the order. */
  method Finish(
    data: seq<Edge>, inDegree0: map<NodeId, int>, queue0: seq<NodeId>,
    order0: seq<NodeId>, visited0: set<NodeId>, nodeId: NodeId)
    returns (inDegree: map<NodeId, int>, queue: seq<NodeId>, order: seq<NodeId>, visited: set<NodeId>)
    requires Sorting(data, inDegree0, [nodeId] + queue0, order0, visited0)
    requires nodeId !in visited0
    requires forall e :: e in data ==> e.to in inDegree0
    ensures inDegree.Keys == inDegree0.Keys
    ensures visited == visited0 + {nodeId} && order == order0 + [nodeId]
    ensures Sorting(data, inDegree, queue, order, visited)
  {
    assert ([nodeId] + queue0)[0] == nodeId;
    assert forall q :: q in queue0 ==> q in [nodeId] + queue0;
    AppendKeepsOrder(data, order0, visited0, nodeId);
    inDegree, queue := Release(data, inDegree0, queue0, visited0, nodeId);
    visited := visited0 + {nodeId};
    order := order0 + [nodeId];
  }

  lemma OnlyListedNodesAreFree(g: Graph, data: seq<Edge>, inDegree: map<NodeId, int>)
    requires inDegree.Keys == Elems(g.nodeIds) + (set e | e in data :: e.to)
    requires forall n :: n in inDegree ==> inDegree[n] == Waiting(data, {}, n)
    ensures forall n :: n in inDegree && inDegree[n] == 0 ==> n in g.nodeIds
  {
    forall n | n in inDegree && inDegree[n] == 0 ensures n in g.nodeIds {
      if n !in Elems(g.nodeIds) {
        var e :| e in data && e.to == n;
        NoneWaiting(data, {}, n, e);
      }
    }
  }

  lemma AllOrdered(g: Graph, data: seq<Edge>, order: seq<NodeId>)
    requires WellKeyed(g) && ValidEndpoints(g) && data == DataEdges(g)
    requires NoDup(order) && Elems(order) <= Elems(g.nodeIds) + (set e | e in data :: e.to)
    requires PredecessorsFirst(DataRel(g), order)
    requires |order| == |g.nodeIds|
    ensures IsTopologicalOrder(g, order) && Acyclic(DataRel(g))
  {
    NoDupSize(order);
    NoDupSize(g.nodeIds);
    assert forall e :: e in data ==> e in g.edges;
    SubsetOfEqualSize(Elems(order), g.nodes.Keys);
    TopologicalOrderMeansAcyclic(g, order);
  }

  lemma AppendKeepsOrder(data: seq<Edge>, order: seq<NodeId>, done: set<NodeId>, x: NodeId)
    requires done == Elems(order)
    requires PredecessorsFirst(EdgePairs(data), order)
    requires Waiting(data, done, x) == 0
    ensures PredecessorsFirst(EdgePairs(data), order + [x])
  {
    var longer := order + [x];
    forall a, j: nat | j < |longer| && (a, longer[j]) in EdgePairs(data) ensures a in longer[..j] {
      if j < |order| {
        assert longer[..j] == order[..j] && longer[j] == order[j];
      } else {
        assert longer[..j] == order;
        var e := PairIsEdge(data, a, x);
        NoneWaiting(data, done, x, e);
      }
    }
  }

  lemma LeftOverIsBehindCycles(
    g: Graph, data: seq<Edge>, inDegree: map<NodeId, int>, order: seq<NodeId>, cycle: seq<NodeId>)
    requires WellKeyed(g) && ValidEndpoints(g) && data == DataEdges(g)
    requires inDegree.Keys == Elems(g.nodeIds) + (set e | e in data :: e.to)
    requires forall n :: n in inDegree ==> inDegree[n] == Waiting(data, Elems(order), n)
    requires forall n :: n in inDegree && inDegree[n] == 0 ==> n in order
    requires NoDup(order) && Elems(order) <= inDegree.Keys && PredecessorsFirst(DataRel(g), order)
    requires |order| != |g.nodeIds|
    requires forall n :: n in cycle <==> n in g.nodeIds && n !in order
    ensures cycle != []
    ensures forall n :: n in cycle <==> n in g.nodes && BehindCycle(DataRel(g), n)
    ensures !Acyclic(DataRel(g))
  {
    var r, left := DataRel(g), Elems(cycle);
    assert forall e :: e in data ==> e in g.edges;
    forall y | y in left ensures HasPredecessorIn(r, left, y) {
      assert y in Elems(g.nodeIds);
      var e := SomeWaiting(data, Elems(order), y);
      EdgeIsPair(data, e);
      assert (e.from, y) in r && e.from in Elems(g.nodeIds);
    }
    if cycle == [] {
      assert Elems(g.nodeIds) == Elems(order);
      NoDupSize(order);
      NoDupSize(g.nodeIds);
    }
    NoSourceMeansCycle(r, left, cycle[0]);
    forall n ensures n in cycle <==> n in g.nodes && BehindCycle(r, n) {
      assert n in g.nodes <==> n in Elems(g.nodeIds);
      if n in cycle {
        NoSourceMeansCycle(r, left, n);
      } else if n in order {
        ListedIsNotBehindCycle(r, order, n);
      }
    }
  }

  // ----- structural validation -----

  datatype GraphError =
    | CycleDetected(nodes: seq<NodeId>)
    | EntryNodeMissing | EntryNodeHasInputs
    | ExitNodeMissing(node: NodeId) | ExitNodeHasOutputs
    | EdgeSourceInvalid(edge: EdgeId) | EdgeTargetInvalid(edge: EdgeId)
    | OrphanedNode(node: NodeId) | UnknownNodeKind(node: NodeId)

  const OUTPUT_ID: NodeId := "_output"

  ghost predicate HasIncoming(g: Graph, n: NodeId) {
    exists e :: e in g.edges && e.to == n
  }

  /** The defects other than cycles, each with the condition it reports. */
  ghost predicate Violates(g: Graph, registry: Option<set<NodeKind>>, x: GraphError) {
    match x
    case CycleDetected(_) => false
    case EntryNodeMissing => g.entryNode !in g.nodes
    case EntryNodeHasInputs => exists e :: e in g.edges && e.kind.Data? && e.to == g.entryNode
    case ExitNodeMissing(n) => n in g.exitNodes && n !in g.nodes
    case ExitNodeHasOutputs =>
      OUTPUT_ID in g.nodes && exists e :: e in g.edges && e.kind.Data? && e.from == OUTPUT_ID
    case EdgeSourceInvalid(id) => exists e :: e in g.edges && e.id == id && e.from !in g.nodes
    case EdgeTargetInvalid(id) => exists e :: e in g.edges && e.id == id && e.to !in g.nodes
    case OrphanedNode(n) => n in g.nodes && n != g.entryNode && !HasIncoming(g, n)
    case UnknownNodeKind(n) => registry.Some? && n in g.nodes && g.nodes[n].kind !in registry.value
  }

  /** What validation promises of the graphs it lets through. */
  ghost predicate Structural(g: Graph, registry: Option<set<NodeKind>>) {
    && Acyclic(DataRel(g))
    && ValidEndpoints(g)
    && g.entryNode in g.nodes
    && (forall e :: e in g.edges && e.kind.Data? ==> e.to != g.entryNode)
    && (forall n :: n in g.exitNodes ==> n in g.nodes)
    && (OUTPUT_ID in g.nodes ==> forall e :: e in g.edges && e.kind.Data? ==> e.from != OUTPUT_ID)
    && (forall n :: n in g.nodes && n != g.entryNode ==> HasIncoming(g, n))
    && (registry.Some? ==> forall n :: n in g.nodes ==> g.nodes[n].kind in registry.value)
  }

  method ExitErrors(g: Graph) returns (errors: seq<GraphError>)
    ensures forall x :: x in errors <==> x.ExitNodeMissing? && Violates(g, None, x)
  {
    errors := [];
    for i := 0 to |g.exitNodes|
      invariant forall x :: x in errors <==>
                              x.ExitNodeMissing? && x.node in g.exitNodes[..i] && x.node !in g.nodes
    {
      assert g.exitNodes[..i + 1] == g.exitNodes[..i] + [g.exitNodes[i]];
      if g.exitNodes[i] !in g.nodes {
        errors := errors + [ExitNodeMissing(g.exitNodes[i])];
      }
    }
    assert g.exitNodes[..|g.exitNodes|] == g.exitNodes;
  }

  method EdgeErrors(g: Graph) returns (errors: seq<GraphError>)
    ensures forall x :: x in errors <==>
                          (x.EdgeSourceInvalid? || x.EdgeTargetInvalid?) && Violates(g, None, x)
  {
    errors := [];
    for i := 0 to |g.edges|
      invariant forall x :: x in errors ==>
                              (x.EdgeSourceInvalid? || x.EdgeTargetInvalid?) && Violates(g, None, x)
      invariant forall k :: 0 <= k < i && g.edges[k].from !in g.nodes ==>
                              EdgeSourceInvalid(g.edges[k].id) in errors
      invariant forall k :: 0 <= k < i && g.edges[k].to !in g.nodes ==>
                              EdgeTargetInvalid(g.edges[k].id) in errors
    {
      var e := g.edges[i];
      assert e in g.edges;
      if e.from !in g.nodes {
        errors := errors + [EdgeSourceInvalid(e.id)];
      }
      if e.to !in g.nodes {
        errors := errors + [EdgeTargetInvalid(e.id)];
      }
    }
  }

  method NodeErrors(g: Graph, registry: Option<set<NodeKind>>) returns (errors: seq<GraphError>)
    requires WellKeyed(g)
    ensures forall x :: x in errors <==>
                          (x.OrphanedNode? || x.UnknownNodeKind?) && Violates(g, registry, x)
  {
    errors := [];
    assert forall n :: n in g.nodes <==> n in Elems(g.nodeIds);
    for i := 0 to |g.nodeIds|
      invariant forall x :: x in errors <==>
                              x.OrphanedNode? && x.node in g.nodeIds[..i] && Violates(g, registry, x)
    {
      var n := g.nodeIds[i];
      assert g.nodeIds[..i + 1] == g.nodeIds[..i] + [n];
      if n != g.entryNode && Filter(g.edges, (e: Edge) => e.to == n) == [] {
        assert forall e :: e in g.edges && e.to == n ==> e in Filter(g.edges, (e: Edge) => e.to == n);
        errors := errors + [OrphanedNode(n)];
      } else if n != g.entryNode {
        assert Filter(g.edges, (e: Edge) => e.to == n)[0] in g.edges;
        assert HasIncoming(g, n);
      }
    }
    assert g.nodeIds[..|g.nodeIds|] == g.nodeIds;
    if registry.Some? {
      for i := 0 to |g.nodeIds|
        invariant forall x :: x in errors <==>
                                || (x.OrphanedNode? && Violates(g, registry, x))
                                || (x.UnknownNodeKind? && x.node in g.nodeIds[..i] && Violates(g, registry, x))
      {
        var n := g.nodeIds[i];
        assert n in Elems(g.nodeIds);
        assert g.nodeIds[..i + 1] == g.nodeIds[..i] + [n];
        if g.nodes[n].kind !in registry.value {
          errors := errors + [UnknownNodeKind(n)];
        }
      }
      assert g.nodeIds[..|g.nodeIds|] == g.nodeIds;
    }
  }

  method EndpointErrors(g: Graph) returns (errors: seq<GraphError>)
    ensures forall x :: x in errors <==>
                          (x.EntryNodeMissing? || x.EntryNodeHasInputs? || x.ExitNodeHasOutputs?) &&
                          Violates(g, None, x)
  {
    errors := [];
    if g.entryNode !in g.nodes {
      errors := errors + [EntryNodeMissing];
    }
    assert forall e :: e in g.edges && e.kind.Data? && e.to == g.entryNode <==> e in IncomingData(g, g.entryNode);
    if IncomingData(g, g.entryNode) != [] {
      assert IncomingData(g, g.entryNode)[0] in g.edges;
      errors := errors + [EntryNodeHasInputs];
    }
    assert forall e :: e in g.edges && e.kind.Data? && e.from == OUTPUT_ID <==> e in OutgoingData(g, OUTPUT_ID);
    if OUTPUT_ID in g.nodes && OutgoingData(g, OUTPUT_ID) != [] {
      assert OutgoingData(g, OUTPUT_ID)[0] in g.edges;
      errors := errors + [ExitNodeHasOutputs];
    }
  }

  /** Structural validation: no error exactly when the graph is structurally sound,
      each non-cycle error exactly when its defect is present and, where edges have
      valid endpoints, a cycle error exactly when there is a cycle, naming exactly
      the nodes on or behind cycles. */
  method ValidateGraph(g: Graph, registry: Option<set<NodeKind>>) returns (errors: seq<GraphError>)
    requires WellKeyed(g)
    ensures errors == [] <==> Structural(g, registry)
    ensures forall x :: x in errors && !x.CycleDetected? <==> Violates(g, registry, x)
    ensures ValidEndpoints(g) && !Acyclic(DataRel(g)) ==> exists x :: x in errors && x.CycleDetected?
    ensures ValidEndpoints(g) ==> forall x :: x in errors && x.CycleDetected? ==> CorrectSort(g, Err(x.nodes))
  {
    var cycle: seq<GraphError> := [];
    var sorted := TopologicalSort(g);
    if sorted.Err? {
      cycle := [CycleDetected(sorted.error)];
    }
    var endpoints := EndpointErrors(g);
    var exits := ExitErrors(g);
    var edges := EdgeErrors(g);
    var nodes := NodeErrors(g, registry);
    var others := endpoints + exits + edges + nodes;
    assert forall x :: x in others <==> Violates(g, registry, x);
    errors := cycle + others;
    NoErrorMeansStructural(g, registry, sorted, errors);
    assert sorted.Err? ==> errors[0] == CycleDetected(sorted.error);
  }

  lemma NoErrorMeansStructural(
    g: Graph, registry: Option<set<NodeKind>>, sorted: Result<seq<NodeId>, seq<NodeId>>, errors: seq<GraphError>)
    requires ValidEndpoints(g) ==> CorrectSort(g, sorted)
    requires forall x :: x in errors <==> Violates(g, registry, x) || (sorted.Err? && x == CycleDetected(sorted.error))
    ensures errors == [] <==> Structural(g, registry)
  {
    NoViolationMeansStructural(g, registry);
    assert sorted.Err? ==> CycleDetected(sorted.error) in errors;
    if errors == [] {
      assert forall x :: x !in errors;
      EndpointsWithoutViolation(g, registry);
    } else {
      assert errors[0] in errors;
    }
  }

  lemma EndpointsWithoutViolation(g: Graph, registry: Option<set<NodeKind>>)
    requires forall x :: !Violates(g, registry, x)
    ensures ValidEndpoints(g)
  {
    forall e | e in g.edges ensures e.from in g.nodes && e.to in g.nodes {
      assert !Violates(g, registry, EdgeSourceInvalid(e.id));
      assert !Violates(g, registry, EdgeTargetInvalid(e.id));
    }
  }

  lemma NoViolationMeansStructural(g: Graph, registry: Option<set<NodeKind>>)
    ensures Structural(g, registry) <==>
              Acyclic(DataRel(g)) && ValidEndpoints(g) && forall x :: !Violates(g, registry, x)
  {
    if Acyclic(DataRel(g)) && ValidEndpoints(g) && forall x :: !Violates(g, registry, x) {
      assert !Violates(g, registry, EntryNodeMissing);
      assert !Violates(g, registry, EntryNodeHasInputs);
      assert !Violates(g, registry, ExitNodeHasOutputs);
      forall n | n in g.exitNodes ensures n in g.nodes {
        assert !Violates(g, registry, ExitNodeMissing(n));
      }
      forall n | n in g.nodes && n != g.entryNode ensures HasIncoming(g, n) {
        assert !Violates(g, registry, OrphanedNode(n));
      }
      forall n | registry.Some? && n in g.nodes ensures g.nodes[n].kind in registry.value {
        assert !Violates(g, registry, UnknownNodeKind(n));
      }
    }
  }

  // ----- control paths -----

  /** Whether a node may run, given the control edges decided so far. */
  function IsControlPathActive(n: NodeId, g: Graph, activated: set<EdgeId>, deactivated: set<EdgeId>): (r: bool)
    ensures !r <==>
              && (exists e :: e in g.edges && e.kind.Control? && e.to == n)
              && (forall e :: e in g.edges && e.kind.Control? && e.to == n ==> e.id in deactivated)
  {
    var incoming := IncomingControl(g, n);
    assert forall e :: e in g.edges && e.kind.Control? && e.to == n <==> e in incoming;
    if incoming == [] then true
    else
      assert incoming[0] in incoming;
      if forall e | e in incoming :: e.id in deactivated then false
      else if exists e | e in incoming :: e.id in activated then true
      else true
  }

  // ----- the nodes of an inactive branch -----

  ghost function PlainNodes(g: Graph): set<NodeId> {
    set n | n in g.nodes && g.nodes[n].kind != Merge
  }

  /** Edges of either kind between nodes that are not merge nodes. */
  ghost function PlainRel(g: Graph): (r: Rel<NodeId>)
    ensures forall a, b :: (a, b) in r <==>
                             a in PlainNodes(g) && b in PlainNodes(g) &&
                             exists e :: e in g.edges && e.from == a && e.to == b
  {
    set e | e in g.edges && e.from in PlainNodes(g) && e.to in PlainNodes(g) :: (e.from, e.to)
  }

  /** The targets, other than merge nodes, of the deactivated control edges of a conditional. */
  ghost function DeactivatedTargets(g: Graph, conditional: NodeId, deactivated: set<EdgeId>): set<NodeId> {
    set e | e in g.edges && e.kind.Control? && e.from == conditional && e.id in deactivated &&
            e.to in PlainNodes(g) :: e.to
  }

  /** Reachable from the target of a deactivated edge of `conditional`, passing no merge node. */
  ghost predicate OnInactiveBranch(g: Graph, conditional: NodeId, deactivated: set<EdgeId>, n: NodeId) {
    ReachedFrom(PlainRel(g), DeactivatedTargets(g, conditional, deactivated), n)
  }

  method BranchTargets(g: Graph, conditional: NodeId, deactivated: set<EdgeId>) returns (queue: seq<NodeId>)
    ensures forall q :: q in queue <==>
                          exists e :: e in g.edges && e.kind.Control? && e.from == conditional &&
                                      e.id in deactivated && e.to == q
  {
    queue := [];
    var control := OutgoingControl(g, conditional);
    for i := 0 to |control|
      invariant forall q :: q in queue <==> exists k :: 0 <= k < i && control[k].id in deactivated && control[k].to == q
    {
      if control[i].id in deactivated {
        queue := queue + [control[i].to];
      }
    }
    forall e | e in g.edges && e.kind.Control? && e.from == conditional && e.id in deactivated
      ensures e.to in queue
    {
      assert e in control;
    }
    forall q | q in queue
      ensures exists e :: e in g.edges && e.kind.Control? && e.from == conditional && e.id in deactivated && e.to == q
    {
      var k :| 0 <= k < |control| && control[k].id in deactivated && control[k].to == q;
      assert control[k] in control;
    }
  }

  function Targets(edges: seq<Edge>): (r: seq<NodeId>)
    ensures forall t :: t in r <==> exists e :: e in edges && e.to == t
  {
    if edges == [] then [] else [edges[0].to] + Targets(edges[1..])
  }

  method VisitInactive(g: Graph, ghost starts: set<NodeId>, seen: seq<NodeId>, todo: seq<NodeId>)
    returns (inactive: seq<NodeId>, queue: seq<NodeId>)
    requires Searching(PlainRel(g), PlainNodes(g), starts, seen, todo)
    requires todo != [] && todo[0] !in seen && todo[0] in PlainNodes(g)
    ensures inactive == seen + [todo[0]] && Searching(PlainRel(g), PlainNodes(g), starts, inactive, queue)
    ensures PlainNodes(g) - Elems(inactive) < PlainNodes(g) - Elems(seen)
  {
    var n := todo[0];
    var targets := Targets(Filter(g.edges, (e: Edge) => e.from == n));
    SearchVisits(PlainRel(g), PlainNodes(g), starts, seen, todo, targets);
    inactive := seen + [n];
    queue := todo[1..] + targets;
    assert Elems(inactive) == Elems(seen) + {n} && n in PlainNodes(g) - Elems(seen);
  }

  /** The breadth-first search for inactive nodes finds exactly the nodes on the
      inactive branches, each once. */
  method NodesOnInactiveBranches(g: Graph, conditional: NodeId, deactivated: set<EdgeId>)
    returns (inactive: seq<NodeId>)
    ensures NoDup(inactive)
    ensures forall n :: n in inactive <==> OnInactiveBranch(g, conditional, deactivated, n)
    ensures forall n :: n in inactive ==> n in g.nodes && g.nodes[n].kind != Merge
  {
    inactive := [];
    var queue := BranchTargets(g, conditional, deactivated);
    ghost var r, live := PlainRel(g), PlainNodes(g);
    ghost var starts := DeactivatedTargets(g, conditional, deactivated);
    SearchStarts(r, live, starts, queue);
    while queue != []
      invariant Searching(r, live, starts, inactive, queue)
      decreases live - Elems(inactive), |queue|
    {
      var n := queue[0];
      if n in inactive || n !in g.nodes || g.nodes[n].kind == Merge {
        SearchSkips(r, live, starts, inactive, queue);
        queue := queue[1..];
        continue;
      }
      inactive, queue := VisitInactive(g, starts, inactive, queue);
    }
    SearchEnds(r, live, starts, inactive);
  }
}
