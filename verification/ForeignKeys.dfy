/** The foreign-key graph of a parsed schema, and its hop-bounded reachability search. */
module ForeignKeys {
  import opened Common

  datatype ForeignKey = ForeignKey(column: string, refTable: string, refColumn: string)

  datatype FkEdge = FkEdge(fromTable: string, fromColumn: string, toTable: string, toColumn: string)

  datatype Table = Table(name: string, foreignKeys: seq<ForeignKey>)

  type Adjacency = map<string, seq<FkEdge>>

  // ----- building the graph -----

  function EdgeOf(table: string, fk: ForeignKey, lower: string -> string): FkEdge {
    FkEdge(table, fk.column, lower(fk.refTable), fk.refColumn)
  }

  /** Every declared key, in declaration order. */
  function DeclaredIn(name: string, fks: seq<ForeignKey>, lower: string -> string): seq<FkEdge> {
    seq(|fks|, i requires 0 <= i < |fks| => EdgeOf(name, fks[i], lower))
  }

  function Declared(tables: seq<Table>, lower: string -> string): seq<FkEdge> {
    if tables == [] then []
    else
      var last := tables[|tables| - 1];
      Declared(tables[..|tables| - 1], lower) + DeclaredIn(last.name, last.foreignKeys, lower)
  }

  function EdgesAt(g: Adjacency, table: string): seq<FkEdge> {
    if table in g then g[table] else []
  }

  function Outgoing(edges: seq<FkEdge>, table: string): seq<FkEdge> {
    Filter(edges, (e: FkEdge) => e.fromTable == table)
  }

  function Incoming(edges: seq<FkEdge>, table: string): seq<FkEdge> {
    Filter(edges, (e: FkEdge) => e.toTable == table)
  }

  ghost predicate Indexes(outbound: Adjacency, inbound: Adjacency, edges: seq<FkEdge>) {
    forall t: string :: EdgesAt(outbound, t) == Outgoing(edges, t) && EdgesAt(inbound, t) == Incoming(edges, t)
  }

  lemma OneMoreEdge(edges: seq<FkEdge>, edge: FkEdge, t: string)
    ensures Outgoing(edges + [edge], t) == Outgoing(edges, t) + if edge.fromTable == t then [edge] else []
    ensures Incoming(edges + [edge], t) == Incoming(edges, t) + if edge.toTable == t then [edge] else []
  {
    FilterSnoc(edges, edge, (e: FkEdge) => e.fromTable == t);
    FilterSnoc(edges, edge, (e: FkEdge) => e.toTable == t);
  }

  lemma IndexesGrow(outbound: Adjacency, inbound: Adjacency, edges: seq<FkEdge>, edge: FkEdge)
    requires Indexes(outbound, inbound, edges)
    ensures Indexes(outbound[edge.fromTable := EdgesAt(outbound, edge.fromTable) + [edge]],
                    inbound[edge.toTable := EdgesAt(inbound, edge.toTable) + [edge]], edges + [edge])
  {
    var outbound1 := outbound[edge.fromTable := EdgesAt(outbound, edge.fromTable) + [edge]];
    var inbound1 := inbound[edge.toTable := EdgesAt(inbound, edge.toTable) + [edge]];
    forall t: string
      ensures EdgesAt(outbound1, t) == Outgoing(edges + [edge], t) && EdgesAt(inbound1, t) == Incoming(edges + [edge], t)
    {
      OneMoreEdge(edges, edge, t);
      assert EdgesAt(outbound, t) == Outgoing(edges, t) && EdgesAt(inbound, t) == Incoming(edges, t);
    }
  }

  /** Both indexes are filled in step. */
  method AddKeys(
    table: Table, lower: string -> string, outbound0: Adjacency, inbound0: Adjacency, ghost edges: seq<FkEdge>)
    returns (outbound: Adjacency, inbound: Adjacency)
    requires Indexes(outbound0, inbound0, edges)
    ensures Indexes(outbound, inbound, edges + DeclaredIn(table.name, table.foreignKeys, lower))
  {
    var fks := table.foreignKeys;
    ghost var declared := DeclaredIn(table.name, fks, lower);
    outbound, inbound := outbound0, inbound0;
    assert edges + declared[..0] == edges;
    for k := 0 to |fks|
      invariant Indexes(outbound, inbound, edges + declared[..k])
    {
      var edge := EdgeOf(table.name, fks[k], lower);
      IndexesGrow(outbound, inbound, edges + declared[..k], edge);
      outbound := outbound[edge.fromTable := EdgesAt(outbound, edge.fromTable) + [edge]];
      inbound := inbound[edge.toTable := EdgesAt(inbound, edge.toTable) + [edge]];
      assert edges + declared[..k + 1] == edges + declared[..k] + [edge];
    }
    assert declared[..|fks|] == declared;
  }

  /** Each declared key is under its own table in one index and under the table it refers to
      in the other, in declaration order. */
  method BuildFkGraph(tables: seq<Table>, lower: string -> string) returns (outbound: Adjacency, inbound: Adjacency)
    ensures Indexes(outbound, inbound, Declared(tables, lower))
  {
    outbound, inbound := map[], map[];
    for i := 0 to |tables|
      invariant Indexes(outbound, inbound, Declared(tables[..i], lower))
    {
      outbound, inbound := AddKeys(tables[i], lower, outbound, inbound, Declared(tables[..i], lower));
      assert tables[..i + 1][..i] == tables[..i];
    }
    assert tables[..|tables|] == tables;
  }

  /** The two indexes mirror each other: s refers to t exactly when t is referred to by s. */
  lemma ReferencesMirror(outbound: Adjacency, inbound: Adjacency, edges: seq<FkEdge>, s: string, t: string)
    requires Indexes(outbound, inbound, edges)
    ensures (exists e <- EdgesAt(outbound, s) :: e.toTable == t) <==> exists e <- EdgesAt(inbound, t) :: e.fromTable == s
  {
    assert EdgesAt(outbound, s) == Outgoing(edges, s) && EdgesAt(inbound, t) == Incoming(edges, t);
    if e :| e in EdgesAt(outbound, s) && e.toTable == t {
      assert e in Incoming(edges, t);
    }
    if e :| e in EdgesAt(inbound, t) && e.fromTable == s {
      assert e in Outgoing(edges, s);
    }
  }

  // ----- bounded reachability -----

  predicate Refers(g: Adjacency, a: string, b: string) {
    exists e <- EdgesAt(g, a) :: e.toTable == b
  }

  /** p leads from a to b along foreign keys. */
  ghost predicate Leads(g: Adjacency, p: seq<string>, a: string, b: string) {
    |p| > 0 && p[0] == a && p[|p| - 1] == b && forall i :: 0 < i < |p| ==> Refers(g, p[i - 1], p[i])
  }

  ghost predicate Within(g: Adjacency, a: string, b: string, hops: int) {
    exists p :: Leads(g, p, a, b) && |p| - 1 <= hops
  }

  lemma WithinStep(g: Adjacency, a: string, b: string, c: string, hops: nat)
    requires Within(g, a, b, hops) && Refers(g, b, c)
    ensures Within(g, a, c, hops + 1)
  {
    var p :| Leads(g, p, a, b) && |p| - 1 <= hops;
    assert Leads(g, p + [c], a, c);
  }

  datatype Entry = Entry(table: string, hops: nat)

  ghost predicate Queued(queue: seq<Entry>, table: string, hops: int) {
    exists e <- queue :: e.table == table && e.hops <= hops
  }

  ghost predicate Located(g: Adjacency, from: string, queue: seq<Entry>) {
    forall e <- queue :: Within(g, from, e.table, e.hops)
  }

  /** Two hop counts at most, in order. */
  ghost predicate Ordered(queue: seq<Entry>) {
    forall i, j :: 0 <= i < j < |queue| ==> queue[i].hops <= queue[j].hops <= queue[i].hops + 1
  }

  ghost predicate Shallow(to: string, maxHops: int, queue: seq<Entry>, depth: map<string, nat>) {
    forall v <- depth :: v != to && depth[v] < maxHops && forall e <- queue :: depth[v] <= e.hops
  }

  ghost predicate Started(from: string, maxHops: int, queue: seq<Entry>, depth: map<string, nat>) {
    (from in depth && depth[from] == 0) || Queued(queue, from, 0) || maxHops <= 0
  }

  ghost predicate AllFollowed(g: Adjacency, to: string, maxHops: int, queue: seq<Entry>, depth: map<string, nat>) {
    forall v, w :: v in depth && Refers(g, v, w) ==> Followed(to, maxHops, queue, depth, w, depth[v] + 1)
  }

  /** Where the search stands; `depth` gives the hops at which a table was visited. */
  ghost predicate Exploring(
    g: Adjacency, from: string, to: string, maxHops: int, queue: seq<Entry>, depth: map<string, nat>)
  {
    && Located(g, from, queue) && Ordered(queue) && Shallow(to, maxHops, queue, depth)
    && Started(from, maxHops, queue, depth) && AllFollowed(g, to, maxHops, queue, depth)
  }

  /** w was visited in time, or waits in the queue, or came too late and is not the goal. */
  ghost predicate Followed(to: string, maxHops: int, queue: seq<Entry>, depth: map<string, nat>, w: string, hops: int) {
    (w in depth && depth[w] <= hops) || Queued(queue, w, hops) || (hops >= maxHops && w != to)
  }

  /** With the queue empty the goal is out of reach. */
  lemma NothingLeftToExplore(
    g: Adjacency, from: string, to: string, maxHops: int, depth: map<string, nat>)
    requires Exploring(g, from, to, maxHops, [], depth) && from != to
    ensures !Within(g, from, to, maxHops)
  {
    if Within(g, from, to, maxHops) {
      var p :| Leads(g, p, from, to) && |p| - 1 <= maxHops;
      for i := 0 to |p| - 1
        invariant p[i] in depth && depth[p[i]] <= i
      {
        assert Refers(g, p[i + 1 - 1], p[i + 1]);
        assert Followed(to, maxHops, [], depth, p[i + 1], depth[p[i]] + 1);
      }
      assert false;
    }
  }

  /** Without its first entry the queue still has what was not that entry. */
  lemma QueuedBehind(queue: seq<Entry>, table: string, hops: int)
    requires queue != [] && Queued(queue, table, hops)
    ensures (queue[0].table == table && queue[0].hops <= hops) || Queued(queue[1..], table, hops)
  {
    assert queue == [queue[0]] + queue[1..];
    var e :| e in queue && e.table == table && e.hops <= hops;
    assert e == queue[0] || e in queue[1..];
  }

  /** What was to be followed still is, or has been, once an entry of a table visited no
      later, or beyond the limit, is dropped. */
  lemma StillFollowed(to: string, maxHops: int, queue: seq<Entry>, depth: map<string, nat>, w: string, hops: int)
    requires queue != [] && Followed(to, maxHops, queue, depth, w, hops)
    requires queue[0].table != to
    requires queue[0].hops >= maxHops || (queue[0].table in depth && depth[queue[0].table] <= queue[0].hops)
    ensures Followed(to, maxHops, queue[1..], depth, w, hops)
  {
    if Queued(queue, w, hops) {
      QueuedBehind(queue, w, hops);
    }
  }

  lemma RestKeepsOrder(
    g: Adjacency, from: string, to: string, maxHops: int, queue: seq<Entry>, depth: map<string, nat>)
    requires queue != [] && Located(g, from, queue) && Ordered(queue) && Shallow(to, maxHops, queue, depth)
    ensures Located(g, from, queue[1..]) && Ordered(queue[1..]) && Shallow(to, maxHops, queue[1..], depth)
    ensures queue[0].table in depth ==> depth[queue[0].table] <= queue[0].hops
  {
    assert queue[0] in queue && forall e :: e in queue[1..] ==> e in queue;
  }

  /** Dropping an entry that is too deep, or of a table already visited. */
  lemma DropsEntry(
    g: Adjacency, from: string, to: string, maxHops: int, queue: seq<Entry>, depth: map<string, nat>)
    requires queue != [] && Exploring(g, from, to, maxHops, queue, depth)
    requires queue[0].table != to && (queue[0].hops >= maxHops || queue[0].table in depth)
    ensures Exploring(g, from, to, maxHops, queue[1..], depth)
  {
    RestKeepsOrder(g, from, to, maxHops, queue, depth);
    forall v, w | v in depth && Refers(g, v, w)
      ensures Followed(to, maxHops, queue[1..], depth, w, depth[v] + 1)
    {
      StillFollowed(to, maxHops, queue, depth, w, depth[v] + 1);
    }
    if Queued(queue, from, 0) {
      QueuedBehind(queue, from, 0);
    }
  }

  /** The entries pushed for a table visited at `hops`: every key not yet visited. */
  ghost predicate Pushed(g: Adjacency, current: string, hops: nat, depth: map<string, nat>, pushed: seq<Entry>) {
    && (forall e <- pushed :: e.hops == hops + 1 && Refers(g, current, e.table))
    && forall w :: Refers(g, current, w) ==> w in depth || Entry(w, hops + 1) in pushed
  }

  lemma VisitKeepsPaths(g: Adjacency, from: string, queue: seq<Entry>, pushed: seq<Entry>)
    requires queue != [] && Located(g, from, queue)
    requires forall e <- pushed :: e.hops == queue[0].hops + 1 && Refers(g, queue[0].table, e.table)
    ensures Located(g, from, queue[1..] + pushed)
  {
    var first, rest := queue[0], queue[1..];
    assert first in queue && forall e :: e in rest ==> e in queue;
    forall e | e in pushed
      ensures Within(g, from, e.table, e.hops)
    {
      WithinStep(g, from, first.table, e.table, first.hops);
    }
  }

  /** A queue of two hop counts at most stays one, and grows no shallower. */
  lemma QueueStaysOrdered(queue: seq<Entry>, pushed: seq<Entry>)
    requires queue != [] && Ordered(queue)
    requires forall e <- pushed :: e.hops == queue[0].hops + 1
    ensures Ordered(queue[1..] + pushed)
    ensures forall e <- queue[1..] + pushed :: queue[0].hops <= e.hops
  {
    var rest := queue[1..];
    var queue1 := rest + pushed;
    forall i | 0 <= i < |queue1|
      ensures i < |rest| ==> queue1[i] == queue[i + 1] && queue[0].hops <= queue1[i].hops <= queue[0].hops + 1
      ensures i >= |rest| ==> queue1[i].hops == queue[0].hops + 1
    {
      if i >= |rest| {
        assert queue1[i] in pushed;
      }
    }
  }

  lemma VisitStaysShallow(to: string, maxHops: int, queue: seq<Entry>, depth: map<string, nat>, pushed: seq<Entry>)
    requires queue != [] && Shallow(to, maxHops, queue, depth)
    requires queue[0].table != to && queue[0].hops < maxHops
    requires forall e <- queue[1..] + pushed :: queue[0].hops <= e.hops
    ensures Shallow(to, maxHops, queue[1..] + pushed, depth[queue[0].table := queue[0].hops])
  {
    assert queue[0] in queue;
  }

  lemma VisitStaysStarted(from: string, maxHops: int, queue: seq<Entry>, depth: map<string, nat>, pushed: seq<Entry>)
    requires queue != [] && Started(from, maxHops, queue, depth) && queue[0].table !in depth
    ensures Started(from, maxHops, queue[1..] + pushed, depth[queue[0].table := queue[0].hops])
  {
    if Queued(queue, from, 0) {
      var e :| e in queue && e.table == from && e.hops <= 0;
      assert queue == [queue[0]] + queue[1..];
      assert e == queue[0] || e in queue[1..] + pushed;
    }
  }

  lemma VisitFollows(
    g: Adjacency, to: string, maxHops: int, queue: seq<Entry>, depth: map<string, nat>, pushed: seq<Entry>)
    requires queue != [] && AllFollowed(g, to, maxHops, queue, depth) && Shallow(to, maxHops, queue, depth)
    requires queue[0].table !in depth
    requires Pushed(g, queue[0].table, queue[0].hops, depth[queue[0].table := queue[0].hops], pushed)
    ensures AllFollowed(g, to, maxHops, queue[1..] + pushed, depth[queue[0].table := queue[0].hops])
  {
    var first, rest := queue[0], queue[1..];
    var depth1 := depth[first.table := first.hops];
    assert queue == [first] + rest && first in queue;
    forall v, w | v in depth1 && Refers(g, v, w)
      ensures Followed(to, maxHops, rest + pushed, depth1, w, depth1[v] + 1)
    {
      if v == first.table {
        if w !in depth1 {
          assert Entry(w, first.hops + 1) in rest + pushed;
        }
      } else {
        assert Followed(to, maxHops, queue, depth, w, depth[v] + 1);
        if Queued(queue, w, depth[v] + 1) {
          var e :| e in queue && e.table == w && e.hops <= depth[v] + 1;
          assert e == first || e in rest + pushed;
        }
      }
    }
  }

  lemma VisitsEntry(
    g: Adjacency, from: string, to: string, maxHops: int, queue: seq<Entry>, depth: map<string, nat>, pushed: seq<Entry>)
    requires queue != [] && Exploring(g, from, to, maxHops, queue, depth)
    requires queue[0].table != to && queue[0].hops < maxHops && queue[0].table !in depth
    requires Pushed(g, queue[0].table, queue[0].hops, depth[queue[0].table := queue[0].hops], pushed)
    ensures Exploring(g, from, to, maxHops, queue[1..] + pushed, depth[queue[0].table := queue[0].hops])
  {
    VisitKeepsPaths(g, from, queue, pushed);
    QueueStaysOrdered(queue, pushed);
    VisitStaysShallow(to, maxHops, queue, depth, pushed);
    VisitStaysStarted(from, maxHops, queue, depth, pushed);
    VisitFollows(g, to, maxHops, queue, depth, pushed);
  }

  /** The tables a search can meet. */
  function Universe(g: Adjacency, from: string): (u: set<string>)
    ensures from in u && forall a, b :: Refers(g, a, b) ==> b in u
  {
    {from} + set t, e | t in g && e in g[t] :: e.toTable
  }

  /** The keys of a table just visited, skipping the tables visited already. */
  method PushReferences(outbound: Adjacency, current: Entry, visited: set<string>, queue: seq<Entry>)
    returns (queue1: seq<Entry>)
    ensures queue <= queue1
    ensures forall e <- queue1[|queue|..] :: e.hops == current.hops + 1 && Refers(outbound, current.table, e.table)
    ensures forall w :: Refers(outbound, current.table, w) ==>
              w in visited || Entry(w, current.hops + 1) in queue1[|queue|..]
  {
    queue1 := queue;
    ghost var pushed: seq<Entry> := [];
    var edges := EdgesAt(outbound, current.table);
    for i := 0 to |edges|
      invariant queue1 == queue + pushed
      invariant forall e <- pushed :: e.hops == current.hops + 1 && Refers(outbound, current.table, e.table)
      invariant forall k :: 0 <= k < i ==> edges[k].toTable in visited || Entry(edges[k].toTable, current.hops + 1) in pushed
    {
      assert edges[i] in EdgesAt(outbound, current.table);
      if edges[i].toTable !in visited {
        var entry := Entry(edges[i].toTable, current.hops + 1);
        queue1 := queue1 + [entry];
        pushed := pushed + [entry];
      }
    }
    assert queue1[|queue|..] == pushed;
  }

  ghost predicate InUniverse(queue: seq<Entry>, universe: set<string>, maxHops: int) {
    forall e <- queue :: e.table in universe && (e.hops == 0 || e.hops <= maxHops)
  }

  /** A table comes up for the first time. */
  method Visit(
    outbound: Adjacency, from: string, to: string, maxHops: int, queue: seq<Entry>, visited: set<string>,
    ghost depth: map<string, nat>)
    returns (queue1: seq<Entry>)
    requires queue != [] && visited == depth.Keys && Exploring(outbound, from, to, maxHops, queue, depth)
    requires queue[0].table != to && queue[0].hops < maxHops && queue[0].table !in visited
    requires InUniverse(queue[1..], Universe(outbound, from), maxHops)
    ensures Exploring(outbound, from, to, maxHops, queue1, depth[queue[0].table := queue[0].hops])
    ensures InUniverse(queue1, Universe(outbound, from), maxHops)
  {
    var current := queue[0];
    queue1 := PushReferences(outbound, current, visited + {current.table}, queue[1..]);
    ghost var pushed := queue1[|queue[1..]|..];
    assert queue1 == queue[1..] + pushed;
    VisitsEntry(outbound, from, to, maxHops, queue, depth, pushed);
    PushedInUniverse(outbound, current, queue[1..], pushed, from, maxHops);
  }

  /** Breadth first; a table is marked visited when it is taken from the queue, so it may
      wait there several times, but the first time it comes up is by a shortest path. */
  method IsReachable(outbound: Adjacency, from: string, to: string, maxHops: int) returns (reachable: bool)
    ensures reachable <==> Within(outbound, from, to, if maxHops > 0 then maxHops else 0)
  {
    SelfWithin(outbound, from, to, maxHops);
    if from == to {
      return true;
    }
    var queue := [Entry(from, 0)];
    var visited: set<string> := {};
    ghost var depth: map<string, nat> := map[];
    ghost var universe := Universe(outbound, from);
    StartsExploring(outbound, from, to, maxHops);
    while queue != []
      invariant visited == depth.Keys && visited <= universe
      invariant Exploring(outbound, from, to, maxHops, queue, depth)
      invariant InUniverse(queue, universe, maxHops)
      decreases |universe - visited|, |queue|
    {
      var current := queue[0];
      FirstEntry(outbound, from, queue, universe, maxHops);
      if current.table == to {
        WithinMore(outbound, from, to, current.hops, if maxHops > 0 then maxHops else 0);
        return true;
      }
      if current.hops >= maxHops || current.table in visited {
        DropsEntry(outbound, from, to, maxHops, queue, depth);
        queue := queue[1..];
        continue;
      }
      VisitedGrows(universe, visited, depth, current);
      queue := Visit(outbound, from, to, maxHops, queue, visited, depth);
      visited := visited + {current.table};
      depth := depth[current.table := current.hops];
    }
    if maxHops > 0 {
      NothingLeftToExplore(outbound, from, to, maxHops, depth);
    }
    return false;
  }

  lemma FirstEntry(g: Adjacency, from: string, queue: seq<Entry>, universe: set<string>, maxHops: int)
    requires queue != [] && Located(g, from, queue) && InUniverse(queue, universe, maxHops)
    ensures Within(g, from, queue[0].table, queue[0].hops)
    ensures queue[0].table in universe && (queue[0].hops == 0 || queue[0].hops <= maxHops)
    ensures InUniverse(queue[1..], universe, maxHops)
  {
    assert queue[0] in queue && forall e :: e in queue[1..] ==> e in queue;
  }

  lemma PushedInUniverse(
    g: Adjacency, current: Entry, rest: seq<Entry>, pushed: seq<Entry>, from: string, maxHops: int)
    requires InUniverse(rest, Universe(g, from), maxHops) && current.hops < maxHops
    requires forall e <- pushed :: e.hops == current.hops + 1 && Refers(g, current.table, e.table)
    ensures InUniverse(rest + pushed, Universe(g, from), maxHops)
  {
  }

  lemma VisitedGrows(universe: set<string>, visited: set<string>, depth: map<string, nat>, entry: Entry)
    requires entry.table in universe && entry.table !in visited && visited == depth.Keys && visited <= universe
    ensures visited + {entry.table} == depth[entry.table := entry.hops].Keys && visited + {entry.table} <= universe
    ensures |universe - (visited + {entry.table})| < |universe - visited|
  {
    assert universe - (visited + {entry.table}) == universe - visited - {entry.table};
  }

  lemma SelfWithin(g: Adjacency, from: string, to: string, maxHops: int)
    ensures from == to ==> Within(g, from, to, if maxHops > 0 then maxHops else 0)
    ensures from != to && maxHops <= 0 ==> !Within(g, from, to, 0)
  {
    assert Leads(g, [from], from, from);
  }

  lemma WithinMore(g: Adjacency, a: string, b: string, hops: int, more: int)
    requires Within(g, a, b, hops) && hops <= more
    ensures Within(g, a, b, more)
  {
    var p :| Leads(g, p, a, b) && |p| - 1 <= hops;
    assert Leads(g, p, a, b) && |p| - 1 <= more;
  }

  lemma StartsExploring(g: Adjacency, from: string, to: string, maxHops: int)
    ensures Exploring(g, from, to, maxHops, [Entry(from, 0)], map[])
  {
    assert Leads(g, [from], from, from);
    assert [Entry(from, 0)][0] in [Entry(from, 0)];
  }
}
