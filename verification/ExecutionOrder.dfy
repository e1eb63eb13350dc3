/** The order in which the nodes of a query plan are executed: a post-order walk. */
module ExecutionOrder {
  import opened Common
  import opened Digraph

  /** The nodes a plan node reads from. */
  datatype PlanNode = PlanNode(input: Option<string>, left: Option<string>, right: Option<string>)

  type PlanNodes = map<string, PlanNode>

  function Listed(o: Option<string>): seq<string> {
    if o.Some? then [o.value] else []
  }

  function Inputs(node: PlanNode): seq<string> {
    Listed(node.input) + Listed(node.left) + Listed(node.right)
  }

  lemma InputsAre(node: PlanNode)
    ensures forall c :: c in Inputs(node) <==> Some(c) == node.input || Some(c) == node.left || Some(c) == node.right
  {
  }

  /** Node p reads from node c. */
  function Reads(nodes: PlanNodes): (r: Rel<string>)
    ensures forall p, c :: (p, c) in r <==> p in nodes && c in Inputs(nodes[p])
  {
    set p, c | p in nodes && c in Inputs(nodes[p]) :: (p, c)
  }

  ghost predicate Covers(universe: set<string>, nodes: PlanNodes) {
    forall e <- Reads(nodes) :: e.1 in universe
  }

  /** The part of the plan the root reads from, directly or not. */
  ghost function ReachedReads(nodes: PlanNodes, root: string): (r: Rel<string>)
    ensures forall p, c :: (p, c) in r <==> (p, c) in Reads(nodes) && Reaches(Reads(nodes), root, p) && c in nodes
  {
    set e | e in Reads(nodes) && Reaches(Reads(nodes), root, e.0) && e.1 in nodes
  }

  /** Each listed node comes after the nodes it reads, except those that lead back to it. */
  ghost predicate FirstOrBack(nodes: PlanNodes, root: string, order: seq<string>) {
    forall j: nat, c :: j < |order| && order[j] in nodes && c in Inputs(nodes[order[j]]) && c in nodes ==>
      c in order[..j] || Reaches(ReachedReads(nodes, root), c, order[j])
  }

  /** The nodes on the way down from the root. */
  ghost predicate OnTheWay(nodes: PlanNodes, root: string, way: seq<string>) {
    && IsPath(Reads(nodes), way)
    && forall x <- way :: x in nodes && Reaches(Reads(nodes), root, x)
  }

  /** The listed nodes come once each and after what they read, but for what leads back to
      them; the visited nodes still to be listed are those on the way down from the root. */
  ghost predicate Walking(nodes: PlanNodes, order: seq<string>, visited: set<string>, root: string, stack: seq<string>) {
    && NoDup(order) && FirstOrBack(nodes, root, order) && (forall x <- stack :: x !in order)
    && (forall x <- order :: x in nodes && forall c <- Inputs(nodes[x]) :: c in visited)
    && (forall x <- nodes :: x in visited <==> x in order || x in stack)
    && (forall x <- visited :: Reaches(Reads(nodes), root, x))
  }

  class Walker {
    const nodes: PlanNodes
    var order: seq<string>
    var visited: set<string>

    constructor (nodes: PlanNodes)
      ensures this.nodes == nodes && order == [] && visited == {}
    {
      this.nodes := nodes;
      order, visited := [], {};
    }

    ghost predicate Valid(root: string, stack: seq<string>)
      reads this
    {
      Walking(nodes, order, visited, root, stack)
    }

    method Traverse(id: string, ghost root: string, ghost stack: seq<string>, ghost universe: set<string>)
      requires Valid(root, stack) && Reaches(Reads(nodes), root, id)
      requires stack == [] || (OnTheWay(nodes, root, stack) && (stack[|stack| - 1], id) in Reads(nodes))
      requires id in universe && Covers(universe, nodes)
      modifies this
      decreases universe - visited, 1
      ensures Valid(root, stack) && old(visited) <= visited && old(order) <= order && id in visited
      ensures id in nodes ==> id in order || id in stack
    {
      if id in visited {
        return;
      }
      EnterKeeps(nodes, order, visited, root, stack, id);
      visited := visited + {id};
      if id !in nodes {
        return;
      }
      StepDown(nodes, root, stack, id);
      TraverseInputs(nodes[id], id, root, stack + [id], universe);
      FinishKeeps(nodes, order, visited, root, stack, id);
      order := order + [id];
    }

    method TraverseInputs(
      node: PlanNode, ghost id: string, ghost root: string, ghost way: seq<string>, ghost universe: set<string>)
      requires Valid(root, way) && OnTheWay(nodes, root, way)
      requires way[|way| - 1] == id && node == nodes[id]
      requires Covers(universe, nodes)
      modifies this
      decreases universe - visited, 3
      ensures Valid(root, way) && old(visited) <= visited && old(order) <= order
      ensures forall c <- Inputs(node) :: c in visited && (c in nodes ==> c in order || c in way)
    {
      InputsAre(node);
      TraverseInput(node.input, id, root, way, universe);
      TraverseInput(node.left, id, root, way, universe);
      TraverseInput(node.right, id, root, way, universe);
    }

    method TraverseInput(
      input: Option<string>, ghost id: string, ghost root: string, ghost way: seq<string>, ghost universe: set<string>)
      requires Valid(root, way) && OnTheWay(nodes, root, way)
      requires way[|way| - 1] == id && (input.Some? ==> (id, input.value) in Reads(nodes))
      requires Covers(universe, nodes)
      modifies this
      decreases universe - visited, 2
      ensures Valid(root, way) && old(visited) <= visited && old(order) <= order
      ensures input.Some? ==> input.value in visited && (input.value in nodes ==> input.value in order || input.value in way)
    {
      if input.Some? {
        assert id in way;
        ReachesStep(Reads(nodes), root, id, input.value);
        Traverse(input.value, root, way, universe);
      }
    }
  }

  ghost predicate InputsFirst(nodes: PlanNodes, order: seq<string>) {
    forall j: nat, c :: j < |order| && order[j] in nodes && c in Inputs(nodes[order[j]]) && c in nodes ==> c in order[..j]
  }

  lemma StepDown(nodes: PlanNodes, root: string, stack: seq<string>, id: string)
    requires stack == [] || (OnTheWay(nodes, root, stack) && (stack[|stack| - 1], id) in Reads(nodes))
    requires id in nodes && Reaches(Reads(nodes), root, id)
    ensures OnTheWay(nodes, root, stack + [id])
  {
    var way := stack + [id];
    forall i | 0 < i < |way| ensures (way[i - 1], way[i]) in Reads(nodes) {
      if i < |stack| {
        assert (stack[i - 1], stack[i]) in Reads(nodes);
      }
    }
    assert forall x :: x in way <==> x in stack || x == id;
  }

  /** What is on the way down leads to the node reached. */
  lemma WayLeadsDown(nodes: PlanNodes, root: string, way: seq<string>, c: string)
    requires OnTheWay(nodes, root, way) && c in way
    ensures Reaches(ReachedReads(nodes, root), c, way[|way| - 1])
  {
    var k :| 0 <= k < |way| && way[k] == c;
    var p := way[k..];
    forall i | 0 < i < |p| ensures (p[i - 1], p[i]) in ReachedReads(nodes, root) {
      var x, y := way[k + i - 1], way[k + i];
      assert p[i - 1] == x && p[i] == y;
      assert (x, y) in Reads(nodes) && x in way && y in way;
      assert (x, y) in ReachedReads(nodes, root);
    }
    assert PathFrom(ReachedReads(nodes, root), p, c, way[|way| - 1]);
  }

  lemma EnterKeeps(
    nodes: PlanNodes, order: seq<string>, visited: set<string>, root: string, stack: seq<string>, id: string)
    requires Walking(nodes, order, visited, root, stack) && id !in visited && Reaches(Reads(nodes), root, id)
    ensures id in nodes ==> Walking(nodes, order, visited + {id}, root, stack + [id])
    ensures id !in nodes ==> Walking(nodes, order, visited + {id}, root, stack)
  {
  }

  lemma FinishKeeps(
    nodes: PlanNodes, order: seq<string>, visited: set<string>, root: string, stack: seq<string>, id: string)
    requires Walking(nodes, order, visited, root, stack + [id]) && id !in stack && OnTheWay(nodes, root, stack + [id])
    requires forall c <- Inputs(nodes[id]) :: c in visited && (c in nodes ==> c in order || c in stack + [id])
    ensures Walking(nodes, order + [id], visited, root, stack)
  {
    assert id in stack + [id] && forall x <- stack :: x in stack + [id];
    forall c | c in Inputs(nodes[id]) && c in nodes && c !in order ensures Reaches(ReachedReads(nodes, root), c, id) {
      WayLeadsDown(nodes, root, stack + [id], c);
    }
    ListingKeeps(nodes, root, order, id);
  }

  lemma ListingKeeps(nodes: PlanNodes, root: string, order: seq<string>, id: string)
    requires FirstOrBack(nodes, root, order) && id in nodes
    requires forall c <- Inputs(nodes[id]) :: c in nodes ==> c in order || Reaches(ReachedReads(nodes, root), c, id)
    ensures FirstOrBack(nodes, root, order + [id])
  {
    var longer := order + [id];
    forall j: nat, c | j < |longer| && longer[j] in nodes && c in Inputs(nodes[longer[j]]) && c in nodes
      ensures c in longer[..j] || Reaches(ReachedReads(nodes, root), c, longer[j])
    {
      if j < |order| {
        assert longer[..j] == order[..j] && longer[j] == order[j];
      } else {
        assert longer[..j] == order;
      }
    }
  }

  /** The order lists exactly the nodes the root reads from, directly or not, once each;
      inputs that are no nodes are passed over.  Every node comes after what it reads if and
      only if the part of the plan below the root has no cycle. */
  method GetExecutionOrder(root: string, nodes: PlanNodes) returns (order: seq<string>)
    ensures NoDup(order)
    ensures forall x :: x in order <==> x in nodes && Reaches(Reads(nodes), root, x)
    ensures InputsFirst(nodes, order) <==> Acyclic(ReachedReads(nodes, root))
  {
    var walker := new Walker(nodes);
    ReachesSelf(Reads(nodes), root);
    ghost var universe := {root} + set e | e in Reads(nodes) :: e.1;
    walker.Traverse(root, root, [], universe);
    order := walker.order;
    forall x | x in nodes && Reaches(Reads(nodes), root, x)
      ensures x in order
    {
      var p: seq<string> :| PathFrom(Reads(nodes), p, root, x);
      ReachesStaysIn(Reads(nodes), walker.visited, p);
    }
    if InputsFirst(nodes, order) {
      FirstMeansAcyclic(nodes, root, order);
    } else {
      BackMeansCycle(nodes, root, order);
    }
  }

  lemma FirstMeansAcyclic(nodes: PlanNodes, root: string, order: seq<string>)
    requires NoDup(order) && InputsFirst(nodes, order)
    requires forall x :: x in order <==> x in nodes && Reaches(Reads(nodes), root, x)
    ensures Acyclic(ReachedReads(nodes, root))
  {
    var r := ReachedReads(nodes, root);
    var back := Reverse(r);
    forall a, j: nat | j < |order| && (a, order[j]) in back ensures a in order[..j] {
      assert (order[j], a) in r;
    }
    forall e | e in back ensures e.1 in order {
      assert (e.1, e.0) in r;
    }
    OrderedIsAcyclic(back, order);
    ReverseAcyclic(back);
    assert Reverse(back) == r by {
      forall a, b ensures (a, b) in Reverse(back) <==> (a, b) in r {
      }
    }
  }

  lemma BackMeansCycle(nodes: PlanNodes, root: string, order: seq<string>)
    requires FirstOrBack(nodes, root, order) && !InputsFirst(nodes, order)
    requires forall x <- order :: x in nodes && Reaches(Reads(nodes), root, x)
    ensures !Acyclic(ReachedReads(nodes, root))
  {
    var r := ReachedReads(nodes, root);
    var j: nat, c :| j < |order| && order[j] in nodes && c in Inputs(nodes[order[j]]) && c in nodes && c !in order[..j];
    assert order[j] in order && (order[j], c) in Reads(nodes);
    var p: seq<string> :| PathFrom(r, p, c, order[j]);
    assert IsCycle(r, [order[j]] + p);
  }
}
