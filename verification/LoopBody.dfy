/** Which nodes a loop owns and which it runs: the scheduler's two data-edge searches. */
module LoopBody {
  import opened Common
  import opened Digraph
  import opened PipelineGraph
  import opened GraphUtils

  /** Each predecessor of `x` is the loop itself or in `s`. */
  ghost predicate FedFrom(r: Rel<NodeId>, l: NodeId, s: set<NodeId>, x: NodeId) {
    forall a :: (a, x) in r ==> a == l || a in s
  }

  /** `s` holds the direct targets of the loop and every node that follows a member
      and is fed by the loop and members alone. */
  ghost predicate BodyClosed(r: Rel<NodeId>, l: NodeId, s: set<NodeId>) {
    && (forall b :: (l, b) in r ==> b in s)
    && (forall a, b :: (a, b) in r && a in s && FedFrom(r, l, s, b) ==> b in s)
  }

  ghost predicate InEveryClosed(r: Rel<NodeId>, l: NodeId, x: NodeId) {
    forall s: set<NodeId> :: BodyClosed(r, l, s) ==> x in s
  }

  /** The loop body: the least closed set, whatever order a search visits it in. */
  ghost function BodyOf(g: Graph, l: NodeId): set<NodeId> {
    set x | x in g.nodes && InEveryClosed(DataRel(g), l, x)
  }

  /** Data-edge successors of `start`, `start` included. */
  method ReachableNodes(g: Graph, start: NodeId) returns (reachable: seq<NodeId>)
    requires ValidEndpoints(g) && start in g.nodes
    ensures forall n :: n in reachable <==> Reaches(DataRel(g), start, n)
    ensures forall n :: n in reachable ==> n in g.nodes
  {
    reachable := [];
    var queue := [start];
    LookingStarts(g, start);
    while queue != []
      invariant Looking(g, start, reachable, queue)
      decreases g.nodes.Keys - Elems(reachable), |queue|
    {
      if queue[0] in reachable {
        LookingSkips(g, start, reachable, queue);
        queue := queue[1..];
      } else {
        reachable, queue := Visit(g, start, reachable, queue);
      }
    }
    LookingEnds(g, start, reachable);
  }

  lemma LookingStarts(g: Graph, start: NodeId)
    requires start in g.nodes
    ensures Looking(g, start, [], [start])
  {
    SearchStarts(DataRel(g), g.nodes.Keys, {start}, [start]);
  }

  lemma LookingEnds(g: Graph, start: NodeId, seen: seq<NodeId>)
    requires Looking(g, start, seen, [])
    ensures forall n :: n in seen <==> Reaches(DataRel(g), start, n)
    ensures forall n :: n in seen ==> n in g.nodes
  {
    SearchEnds(DataRel(g), g.nodes.Keys, {start}, seen);
  }

  ghost predicate Looking(g: Graph, start: NodeId, seen: seq<NodeId>, queue: seq<NodeId>) {
    Searching(DataRel(g), g.nodes.Keys, {start}, seen, queue) && forall q :: q in queue ==> q in g.nodes
  }

  lemma LookingSkips(g: Graph, start: NodeId, seen: seq<NodeId>, queue: seq<NodeId>)
    requires ValidEndpoints(g) && start in g.nodes
    requires Looking(g, start, seen, queue) && queue != [] && queue[0] in seen
    ensures Looking(g, start, seen, queue[1..])
  {
    RelInsideNodes(g);
    SearchSkips(DataRel(g), g.nodes.Keys, {start}, seen, queue);
  }

  method Visit(g: Graph, start: NodeId, seen: seq<NodeId>, todo: seq<NodeId>)
    returns (reachable: seq<NodeId>, queue: seq<NodeId>)
    requires ValidEndpoints(g)
    requires Looking(g, start, seen, todo) && todo != [] && todo[0] !in seen
    ensures reachable == seen + [todo[0]] && Looking(g, start, reachable, queue)
    ensures g.nodes.Keys - Elems(reachable) < g.nodes.Keys - Elems(seen)
  {
    var n := todo[0];
    var targets := Targets(OutgoingData(g, n));
    RelInsideNodes(g);
    TargetsAreSuccessors(g, n);
    SearchVisits(DataRel(g), g.nodes.Keys, {start}, seen, todo, targets);
    reachable := seen + [n];
    queue := todo[1..] + targets;
    assert Elems(reachable) == Elems(seen) + {n} && n in g.nodes.Keys - Elems(seen);
  }

  lemma TargetsAreSuccessors(g: Graph, n: NodeId)
    ensures forall b :: b in Targets(OutgoingData(g, n)) <==> (n, b) in DataRel(g)
  {
    forall b | (n, b) in DataRel(g) ensures b in Targets(OutgoingData(g, n)) {
      var e := DataRelEdge(g, n, b);
      assert e in OutgoingData(g, n);
    }
    forall b | b in Targets(OutgoingData(g, n)) ensures (n, b) in DataRel(g) {
      var e :| e in OutgoingData(g, n) && e.to == b;
      DataEdgeInRel(g, e);
    }
  }

  /** What the search has established: all it holds belongs to every closed set, and
      what is still missing goes through the queue. */
  ghost predicate Collecting(g: Graph, l: NodeId, body: seq<NodeId>, queue: seq<NodeId>) {
    var r := DataRel(g);
    && NoDup(body)
    && (forall x :: x in body || x in queue ==> x in g.nodes && InEveryClosed(r, l, x))
    && (forall b :: (l, b) in r ==> b in body || b in queue)
    && (forall a, b :: (a, b) in r && a in body && FedFrom(r, l, Elems(body), b) ==> b in body || b in queue)
  }

  /** The loop-body search computes the least closed set, although the test that
      decides whether to go on to a target depends on what is visited or queued by then. */
  method BodyNodeIds(g: Graph, l: NodeId) returns (body: seq<NodeId>)
    requires ValidEndpoints(g)
    ensures NoDup(body) && Elems(body) == BodyOf(g, l)
    ensures BodyClosed(DataRel(g), l, BodyOf(g, l))
  {
    body := [];
    var queue := Targets(OutgoingData(g, l));
    CollectingStarts(g, l);
    while queue != []
      invariant Collecting(g, l, body, queue)
      decreases g.nodes.Keys - Elems(body), |queue|
    {
      var n := queue[0];
      if n in body {
        CollectingSkips(g, l, body, queue);
        queue := queue[1..];
        continue;
      }
      assert queue == [n] + queue[1..];
      queue := Expand(g, l, body, queue[1..], n);
      FewerLeft(g, l, body, queue, n);
      body := body + [n];
    }
    CollectingEnds(g, l, body);
  }

  lemma CollectingStarts(g: Graph, l: NodeId)
    requires ValidEndpoints(g)
    ensures Collecting(g, l, [], Targets(OutgoingData(g, l)))
  {
    RelInsideNodes(g);
    TargetsAreSuccessors(g, l);
  }

  lemma CollectingSkips(g: Graph, l: NodeId, body: seq<NodeId>, queue: seq<NodeId>)
    requires Collecting(g, l, body, queue) && queue != [] && queue[0] in body
    ensures Collecting(g, l, body, queue[1..])
  {
    assert queue == [queue[0]] + queue[1..];
  }

  lemma CollectingEnds(g: Graph, l: NodeId, body: seq<NodeId>)
    requires Collecting(g, l, body, [])
    ensures Elems(body) == BodyOf(g, l) && BodyClosed(DataRel(g), l, BodyOf(g, l))
  {
    assert BodyClosed(DataRel(g), l, Elems(body));
  }

  lemma FewerLeft(g: Graph, l: NodeId, body: seq<NodeId>, queue: seq<NodeId>, n: NodeId)
    requires Collecting(g, l, body + [n], queue) && n !in body
    ensures g.nodes.Keys - Elems(body + [n]) < g.nodes.Keys - Elems(body)
  {
    assert Elems(body + [n]) == Elems(body) + {n} && n in body + [n];
  }

  method HasExternalIncoming(g: Graph, l: NodeId, visited: seq<NodeId>, queue: seq<NodeId>, to: NodeId)
    returns (external: bool)
    ensures external <==> exists a :: (a, to) in DataRel(g) && a != l && a !in visited && a !in queue
  {
    var incoming := IncomingData(g, to);
    external := exists e | e in incoming :: e.from != l && e.from !in visited && e.from !in queue;
    forall a | (a, to) in DataRel(g) ensures exists e :: e in incoming && e.from == a {
      var e := DataRelEdge(g, a, to);
      assert e in incoming;
    }
    forall e | e in incoming ensures (e.from, to) in DataRel(g) {
      DataEdgeInRel(g, e);
    }
  }

  /** Visits `n`: queues each successor that, as far as the search can tell, has no
      predecessor outside the body. */
  method Expand(g: Graph, l: NodeId, body: seq<NodeId>, rest: seq<NodeId>, n: NodeId) returns (queue: seq<NodeId>)
    requires ValidEndpoints(g)
    requires Collecting(g, l, body, [n] + rest) && n !in body
    ensures Collecting(g, l, body + [n], queue)
  {
    ghost var r := DataRel(g);
    ghost var was := [n] + rest;
    assert n in was && forall q :: q in rest ==> q in was;
    queue := rest;
    var outgoing := OutgoingData(g, n);
    var visited := body + [n];
    for i := 0 to |outgoing|
      invariant forall q :: q in rest ==> q in queue
      invariant forall x :: x in queue ==> x in g.nodes && InEveryClosed(r, l, x)
      invariant forall k :: 0 <= k < i && FedFrom(r, l, Elems(visited), outgoing[k].to) ==> outgoing[k].to in queue
    {
      var to := outgoing[i].to;
      assert outgoing[i] in g.edges;
      DataEdgeInRel(g, outgoing[i]);
      var hasExternalIncoming := HasExternalIncoming(g, l, visited, queue, to);
      if !hasExternalIncoming {
        forall s: set<NodeId> | BodyClosed(r, l, s) ensures to in s {
          assert InEveryClosed(r, l, n) && n in s;
          assert FedFrom(r, l, s, to);
        }
        queue := queue + [to];
      } else {
        assert !FedFrom(r, l, Elems(visited), to);
      }
    }
    KeepsCollecting(g, l, body, rest, n, queue);
  }

  lemma KeepsCollecting(g: Graph, l: NodeId, body: seq<NodeId>, rest: seq<NodeId>, n: NodeId, queue: seq<NodeId>)
    requires Collecting(g, l, body, [n] + rest) && n !in body
    requires forall q :: q in rest ==> q in queue
    requires forall x :: x in queue ==> x in g.nodes && InEveryClosed(DataRel(g), l, x)
    requires forall e :: e in OutgoingData(g, n) && FedFrom(DataRel(g), l, Elems(body + [n]), e.to) ==> e.to in queue
    ensures Collecting(g, l, body + [n], queue)
  {
    var r := DataRel(g);
    var visited := body + [n];
    assert forall q :: q in [n] + rest <==> q == n || q in rest;
    forall a, b | (a, b) in r && a in visited && FedFrom(r, l, Elems(visited), b)
      ensures b in visited || b in queue
    {
      if (n, b) in r {
        var e := DataRelEdge(g, n, b);
        assert e in OutgoingData(g, n);
      } else {
        assert FedFrom(r, l, Elems(body), b);
      }
    }
  }

  ghost predicate After(order: seq<NodeId>, i: nat, x: NodeId) {
    exists j :: i < j < |order| && order[j] == x
  }

  /** Successors come later in a topological order. */
  lemma SuccessorComesLater(g: Graph, order: seq<NodeId>, i: nat, b: NodeId)
    requires ValidEndpoints(g) && IsTopologicalOrder(g, order)
    requires i < |order| && (order[i], b) in DataRel(g)
    ensures After(order, i, b)
  {
    RelInsideNodes(g);
    assert b in Elems(order);
    var j: nat :| j < |order| && order[j] == b;
    assert order[i] in order[..j];
    var k: nat :| k < j && order[..j][k] == order[i];
    assert order[k] == order[i];
  }

  /** Every body node comes after its loop in a topological order. */
  lemma BodyComesLater(g: Graph, order: seq<NodeId>, i: nat)
    requires ValidEndpoints(g) && IsTopologicalOrder(g, order) && i < |order|
    ensures forall x :: x in BodyOf(g, order[i]) ==> After(order, i, x)
  {
    var later := set x | x in order && After(order, i, x);
    forall a, b | (a, b) in DataRel(g) && (a == order[i] || a in later) ensures b in later {
      var j: nat :| i <= j < |order| && order[j] == a;
      SuccessorComesLater(g, order, j, b);
      RelInsideNodes(g);
      assert b in Elems(order);
    }
    assert BodyClosed(DataRel(g), order[i], later);
  }

  /** The direct data targets of a loop are in its body. */
  lemma TargetIsInBody(g: Graph, l: NodeId, e: Edge)
    requires ValidEndpoints(g) && e in g.edges && e.kind.Data? && e.from == l
    ensures e.to in BodyOf(g, l)
  {
    DataEdgeInRel(g, e);
  }
}
