/** Plans are stored with their two Maps spelled out: nodes as an object, edges as a list of
    pairs. */
module PlanSerializer {
  import opened Common
  import opened SemanticCache
  import CachedPlans

  /** The edges of a live graph: a Map, or the array or plain object of older graphs. */
  datatype Edges = EdgeMap(entries: seq<Entry>) | EdgeArray(items: seq<Js>) | EdgeObject(pairs: seq<(string, Js)>)

  datatype PlanGraph = PlanGraph(
    id: string, version: Option<int>, entryNode: Option<string>, metadata: Option<Js>,
    exitNodes: seq<string>, nodes: map<string, Js>, edges: Edges)

  datatype Plan = Plan(intent: Js, graph: PlanGraph, compilationErrors: Option<seq<Js>>, intentRaw: Option<string>, userId: Js)

  /** The stored edges: no such property, an explicit null, or a list. */
  datatype StoredEdges = NoEdges | NullEdges | EdgeItems(items: seq<Js>)

  /** What is stored; an object's properties are its own ones. */
  datatype StoredGraph = StoredGraph(
    id: string, version: Option<int>, entryNode: Option<string>, metadata: Option<Js>,
    exitNodes: seq<string>, nodes: Option<map<string, Js>>, edges: StoredEdges)

  datatype StoredPlan = StoredPlan(
    intent: Js, graph: StoredGraph, compilationErrors: Option<seq<Js>>, intentRaw: Option<string>, userId: Js)

  function OrElse<T>(v: Option<T>, default: T): T {
    if v.Some? then v.value else default
  }

  /** Assigning `__proto__` sets the prototype and makes no property. */
  function OwnProperties(nodes: map<string, Js>): map<string, Js> {
    nodes - {"__proto__"}
  }

  function EdgeList(edges: Edges): seq<Js> {
    match edges
    case EdgeMap(entries) => seq(|entries|, i requires 0 <= i < |entries| => Arr([entries[i].key, entries[i].value]))
    case EdgeArray(items) => items
    case EdgeObject(pairs) => seq(|pairs|, i requires 0 <= i < |pairs| => Arr([Str(pairs[i].0), pairs[i].1]))
  }

  method SerializePlan(plan: Plan) returns (stored: StoredPlan)
    ensures stored == Serialized(plan)
  {
    var g := plan.graph;
    var nodes: map<string, Js> := map[];
    var left := g.nodes.Keys;
    while left != {}
      invariant left <= g.nodes.Keys
      invariant nodes == map id | id in g.nodes && id !in left && id != "__proto__" :: g.nodes[id]
      decreases left
    {
      var id :| id in left;
      left := left - {id};
      if id != "__proto__" {
        nodes := nodes[id := g.nodes[id]];
      }
    }
    assert nodes == OwnProperties(g.nodes);
    stored := StoredPlan(plan.intent,
      StoredGraph(g.id, g.version, g.entryNode, g.metadata, g.exitNodes, Some(nodes), EdgeItems(EdgeList(g.edges))),
      Some(OrElse(plan.compilationErrors, [])), plan.intentRaw, plan.userId);
  }

  function Serialized(plan: Plan): StoredPlan {
    var g := plan.graph;
    StoredPlan(plan.intent,
      StoredGraph(g.id, g.version, g.entryNode, g.metadata, g.exitNodes, Some(OwnProperties(g.nodes)), EdgeItems(EdgeList(g.edges))),
      Some(OrElse(plan.compilationErrors, [])), plan.intentRaw, plan.userId)
  }

  /** The key and value of one stored edge: a pair, an edge with an id, or an edge known by
      its ends; nothing where reading it throws. */
  function EdgeEntry(edge: Js, text: Js -> string): Option<Entry> {
    match edge
    case Arr(_) => Pair(edge)
    case Undefined => None
    case Null => None
    case _ =>
      var id := CachedPlans.Property(edge, "id").value;
      if CachedPlans.Truthy(id) then Some(Entry(id, edge))
      else
        Some(Entry(Str(text(CachedPlans.Property(edge, "from").value) + "->" + text(CachedPlans.Property(edge, "to").value)),
                   edge))
  }

  predicate Unreadable(edge: Js) {
    edge == Null || edge == Undefined
  }

  function EdgesFrom(items: seq<Js>, text: Js -> string): Option<seq<Entry>> {
    if items == [] then Some([])
    else
      match (EdgesFrom(items[..|items| - 1], text), EdgeEntry(items[|items| - 1], text))
      case (Some(entries), Some(last)) => Some(Put(entries, last))
      case _ => None
  }

  /** An explicit null counts as no edges. */
  function ItemsOf(edges: StoredEdges): seq<Js> {
    if edges.EdgeItems? then edges.items else []
  }

  /** Reading a plan back throws exactly when it has no `edges` property, whose text is then
      cut although there is none, or when one of its edges is null. */
  method DeserializePlan(stored: StoredPlan, text: Js -> string) returns (plan: Option<Plan>)
    ensures plan == None <==>
              stored.graph.edges == NoEdges || exists e <- ItemsOf(stored.graph.edges) :: Unreadable(e)
    ensures plan == Deserialized(stored, text)
  {
    if stored.graph.edges == NoEdges {
      return None;
    }
    var items := ItemsOf(stored.graph.edges);
    ReadableEdges(items, text);
    var entries: seq<Entry> := [];
    assert items[..0] == [];
    for i := 0 to |items|
      invariant EdgesFrom(items[..i], text) == Some(entries)
    {
      assert items[..i + 1][..i] == items[..i] && items[..i + 1][i] == items[i];
      var entry := EdgeEntry(items[i], text);
      if entry == None {
        assert items[i] in items;
        return None;
      }
      entries := Put(entries, entry.value);
    }
    assert items[..|items|] == items;
    var g := stored.graph;
    return Some(Plan(stored.intent,
      PlanGraph(g.id, Some(OrElse(g.version, 1)), Some(OrElse(g.entryNode, "")), Some(OrElse(g.metadata, Obj(map[]))),
                g.exitNodes, OrElse(g.nodes, map[]), EdgeMap(entries)),
      Some(OrElse(stored.compilationErrors, [])), Some(OrElse(stored.intentRaw, "")), stored.userId));
  }

  lemma {:induction false} ReadableEdges(items: seq<Js>, text: Js -> string)
    ensures EdgesFrom(items, text) == None <==> exists e <- items :: Unreadable(e)
  {
    if items != [] {
      var init, last := items[..|items| - 1], items[|items| - 1];
      ReadableEdges(init, text);
      assert EdgeEntry(last, text) == None <==> Unreadable(last);
      assert items == init + [last] && forall e :: e in items <==> e in init || e == last;
    }
  }

  function Deserialized(stored: StoredPlan, text: Js -> string): Option<Plan> {
    var entries := EdgesFrom(ItemsOf(stored.graph.edges), text);
    var g := stored.graph;
    if g.edges == NoEdges || entries == None then None
    else
      Some(Plan(stored.intent,
        PlanGraph(g.id, Some(OrElse(g.version, 1)), Some(OrElse(g.entryNode, "")), Some(OrElse(g.metadata, Obj(map[]))),
                  g.exitNodes, OrElse(g.nodes, map[]), EdgeMap(entries.value)),
        Some(OrElse(stored.compilationErrors, [])), Some(OrElse(stored.intentRaw, "")), stored.userId))
  }

  // ----- round trips -----

  lemma {:induction false} PairsComeBack(items: seq<Js>, entries: seq<Entry>, text: Js -> string)
    requires |items| == |entries|
    requires forall i :: 0 <= i < |items| ==> EdgeEntry(items[i], text) == Some(entries[i])
    requires forall i, j :: 0 <= i < j < |entries| ==> entries[i].key != entries[j].key
    ensures EdgesFrom(items, text) == Some(entries)
  {
    if items != [] {
      var n := |items| - 1;
      PairsComeBack(items[..n], entries[..n], text);
      PutFresh(entries[..n], entries[n]);
      assert entries == entries[..n] + [entries[n]];
    }
  }

  /** A plan whose header is complete. */
  predicate Complete(plan: Plan) {
    && plan.graph.version.Some? && plan.graph.entryNode.Some? && plan.graph.metadata.Some?
    && plan.compilationErrors.Some? && plan.intentRaw.Some?
  }

  /** A plan with a complete header and Map edges comes back as it was, exactly if no node is
      called `__proto__`; the edges come back in order. */
  lemma PlanRoundTrips(plan: Plan, text: Js -> string)
    requires Complete(plan) && plan.graph.edges.EdgeMap?
    requires forall i, j :: 0 <= i < j < |plan.graph.edges.entries| ==>
               plan.graph.edges.entries[i].key != plan.graph.edges.entries[j].key
    ensures Deserialized(Serialized(plan), text) == Some(plan) <==> "__proto__" !in plan.graph.nodes
    ensures var back := Deserialized(Serialized(plan), text);
            back.Some? && back.value.graph.edges == plan.graph.edges
            && back.value.(graph := plan.graph) == plan
  {
    var entries := plan.graph.edges.entries;
    var items := EdgeList(plan.graph.edges);
    assert forall i :: 0 <= i < |items| ==> EdgeEntry(items[i], text) == Some(entries[i]);
    PairsComeBack(items, entries, text);
    assert "__proto__" !in plan.graph.nodes ==> OwnProperties(plan.graph.nodes) == plan.graph.nodes;
    assert "__proto__" !in OwnProperties(plan.graph.nodes);
  }

  /** The older format, a list of edges with distinct ids, comes back as a Map by id. */
  lemma EdgeListComesBackById(edges: seq<Js>, text: Js -> string)
    requires forall i :: 0 <= i < |edges| ==> edges[i].Obj? && "id" in edges[i].fields && CachedPlans.Truthy(edges[i].fields["id"])
    requires forall i, j :: 0 <= i < j < |edges| ==> edges[i].fields["id"] != edges[j].fields["id"]
    ensures EdgesFrom(EdgeList(EdgeArray(edges)), text)
         == Some(seq(|edges|, i requires 0 <= i < |edges| => Entry(edges[i].fields["id"], edges[i])))
  {
    var entries := seq(|edges|, i requires 0 <= i < |edges| => Entry(edges[i].fields["id"], edges[i]));
    assert forall i :: 0 <= i < |edges| ==> EdgeEntry(edges[i], text) == Some(entries[i]);
    PairsComeBack(edges, entries, text);
  }
}
