/** What compilation promises: when exactly a compiled graph is structurally sound, and
    what valid intents give without further conditions. */
module CompiledGraphs {
  import opened Common
  import opened Digraph
  import opened PipelineGraph
  import opened GraphUtils
  import opened CycleDetection
  import opened PipelineCompiler
  import opened RunGraph

  // ----- what is stored -----

  ghost predicate SameShape(e: Edge, f: Edge) {
    e.from == f.from && e.to == f.to && e.kind == f.kind && e.condition == f.condition
  }

  /** Edges stored under one id always connect the same nodes in the same way. */
  ghost predicate NoCollision(steps: Steps) {
    forall p, q :: p in AllPuts(steps) && q in AllPuts(steps) && p.Made().id == q.Made().id ==>
      SameShape(p.Made(), q.Made())
  }

  ghost predicate HasId(edges: seq<Edge>, id: EdgeId) {
    exists e :: e in edges && e.id == id
  }

  lemma IdsOfCons(e: Edge, rest: seq<Edge>)
    ensures forall id :: HasId([e] + rest, id) <==> id == e.id || HasId(rest, id)
    ensures DistinctIds([e] + rest) <==> DistinctIds(rest) && !HasId(rest, e.id)
  {
    var all := [e] + rest;
    assert forall f :: f in all <==> f == e || f in rest;
    forall id ensures HasId(all, id) <==> id == e.id || HasId(rest, id) {
      assert e in all;
    }
    assert forall i :: 0 <= i < |rest| ==> all[i + 1] == rest[i];
    if DistinctIds(all) {
      forall i, j | 0 <= i < j < |rest| ensures rest[i].id != rest[j].id {
        assert all[i + 1].id != all[j + 1].id;
      }
      forall f | f in rest ensures f.id != e.id {
        var k :| 0 <= k < |rest| && rest[k] == f;
        assert all[0].id != all[k + 1].id;
      }
    } else {
      var i, j :| 0 <= i < j < |all| && all[i].id == all[j].id;
      assert all[j] == rest[j - 1] && rest[j - 1] in rest;
      assert i > 0 ==> all[i] == rest[i - 1];
    }
  }

  lemma {:induction false} StoreFacts(edges: seq<Edge>, e: Edge, keepOld: bool)
    requires DistinctIds(edges)
    ensures DistinctIds(Store(edges, e, keepOld))
    ensures forall f :: f in Store(edges, e, keepOld) ==> f in edges || f == e
    ensures forall id :: HasId(Store(edges, e, keepOld), id) <==> HasId(edges, id) || id == e.id
  {
    if edges == [] {
      IdsOfCons(e, []);
      assert [e] + [] == [e];
    } else {
      var rest := edges[1..];
      assert edges == [edges[0]] + rest;
      IdsOfCons(edges[0], rest);
      if edges[0].id == e.id {
        IdsOfCons(e, rest);
      } else {
        StoreFacts(rest, e, keepOld);
        IdsOfCons(edges[0], Store(rest, e, keepOld));
      }
    }
  }

  lemma {:induction false} StoredFacts(edges: seq<Edge>, puts: seq<Put>)
    requires DistinctIds(edges)
    ensures DistinctIds(Stored(edges, puts))
    ensures forall f :: f in Stored(edges, puts) ==> f in edges || exists p :: p in puts && p.Made() == f
    ensures forall id :: HasId(edges, id) ==> HasId(Stored(edges, puts), id)
    ensures forall p :: p in puts ==> HasId(Stored(edges, puts), p.Made().id)
    decreases puts
  {
    if puts != [] {
      StoreFacts(edges, puts[0].Made(), puts[0].keepOld);
      StoredFacts(Store(edges, puts[0].Made(), puts[0].keepOld), puts[1..]);
      assert forall p :: p in puts <==> p == puts[0] || p in puts[1..];
    }
  }

  // ----- the relation between steps -----

  /** Step `s` makes data flow from `a` to `b`. */
  ghost predicate Feeds(s: Step, a: StepId, b: StepId) {
    || (b == s.id && a in s.dependsOn)
    || (s.kind == ConditionalStep && a == s.id && (b == s.trueBranch || b == s.falseBranch))
    || (s.kind == LoopStep && s.loopBody != [] && a == s.id && b == s.loopBody[0])
    || (s.kind == MergeStep && b == s.id && a in s.mergeFrom)
    || (s.kind == ParallelStep && a == s.id && b in s.parallelBranches)
  }

  ghost predicate FeedsIn(steps: Steps, a: StepId, b: StepId) {
    exists s :: s in steps && Feeds(s, a, b)
  }

  /** The union of the dependency, branch, first-body, merge and parallel relations. */
  ghost function StepRel(steps: Steps): (r: Rel<StepId>)
    ensures forall a, b :: (a, b) in r <==> a in Ids(steps) && b in Ids(steps) && FeedsIn(steps, a, b)
  {
    set a, b | a in Ids(steps) && b in Ids(steps) && FeedsIn(steps, a, b) :: (a, b)
  }

  ghost predicate FromEntry(steps: Steps, a: NodeId, b: NodeId) {
    a == INPUT_ID && exists s :: s in steps && IsEntry(steps, s) && b == s.id
  }

  ghost predicate ToExit(steps: Steps, a: NodeId, b: NodeId) {
    b == OUTPUT_ID && exists s :: s in steps && IsExitStep(steps, s) && a == s.id
  }

  lemma FeedsStepsOnly(steps: Steps, a: StepId, b: StepId)
    requires ValidIntent(steps) && FeedsIn(steps, a, b)
    ensures a in Ids(steps) && b in Ids(steps)
  {
    var s :| s in steps && Feeds(s, a, b);
    StepIsListed(steps, s);
    assert WellReferenced(s, Elems(Ids(steps)));
    if s.kind == LoopStep && s.loopBody != [] {
      assert s.loopBody[0] in s.loopBody;
    }
  }

  lemma StepIsListed(steps: Steps, s: Step)
    requires s in steps
    ensures s.id in Ids(steps)
  {
    var k :| 0 <= k < |steps| && steps[k] == s;
    assert Ids(steps)[k] == s.id;
  }

  /** Where an edge of a step comes from. */
  ghost predicate PutCase(steps: Steps, s: Step, p: Put) {
    || (IsEntry(steps, s) && p == Put(FromInput, INPUT_ID, s.id, "", false))
    || p in PutsTo(s.dependsOn, s.id, true)
    || (s.kind == ConditionalStep && p in BranchPuts(s))
    || (s.kind == LoopStep && s.loopBody != [] && p == Put(Plain, s.id, s.loopBody[0], "input", true))
    || (s.kind == MergeStep && p in PutsTo(s.mergeFrom, s.id, false))
    || (s.kind == ParallelStep && p in PutsFrom(s.id, s.parallelBranches))
  }

  lemma StepPutCases(steps: Steps, s: Step, p: Put)
    ensures p in StepPuts(steps, s) <==> PutCase(steps, s, p)
  {
  }

  lemma BranchPutIs(s: Step, p: Put)
    requires p in BranchPuts(s)
    ensures p.a == s.id && ((p.b == s.trueBranch && s.trueBranch != "") || (p.b == s.falseBranch && s.falseBranch != ""))
    ensures p.slot == TrueControl || p.slot == FalseControl || p == Put(BranchData, p.a, p.b, "", false)
    ensures Put(BranchData, p.a, p.b, "", false) in BranchPuts(s)
  {
  }

  lemma StepPutOrigin(steps: Steps, s: Step, p: Put)
    requires p in StepPuts(steps, s)
    ensures p.slot != ToOutput
    ensures p.slot == FromInput ==> IsEntry(steps, s) && p.b == s.id
    ensures p.slot != FromInput ==> Feeds(s, p.a, p.b)
  {
    StepPutCases(steps, s, p);
    if s.kind == ConditionalStep && p in BranchPuts(s) {
      BranchPutIs(s, p);
    }
  }

  lemma PutOrigin(steps: Steps, p: Put)
    requires p in AllPuts(steps)
    ensures p.slot == FromInput ==> FromEntry(steps, INPUT_ID, p.b)
    ensures p.slot == ToOutput ==> ToExit(steps, p.a, OUTPUT_ID)
    ensures p.slot != FromInput && p.slot != ToOutput ==> FeedsIn(steps, p.a, p.b)
  {
    PutsOfHas(steps, steps);
    if p in PutsOf(steps, steps) {
      var s :| s in steps && p in StepPuts(steps, s);
      StepPutOrigin(steps, s, p);
    }
  }

  /** The edges a step makes for the data it feeds on. */
  lemma FeedIsPut(steps: Steps, s: Step, a: StepId, b: StepId) returns (p: Put)
    requires ValidIntent(steps) && s in steps && Feeds(s, a, b)
    ensures p in AllPuts(steps) && p.Made().from == a && p.Made().to == b && p.Made().kind.Data?
  {
    assert WellReferenced(s, Elems(Ids(steps)));
    p := PutFor(steps, s, a, b);
    StepPutCases(steps, s, p);
    PutsOfHas(steps, steps);
  }

  lemma PutFor(steps: Steps, s: Step, a: StepId, b: StepId) returns (p: Put)
    requires Feeds(s, a, b) && (s.kind == ConditionalStep ==> s.trueBranch != "" && s.falseBranch != "")
    ensures PutCase(steps, s, p) && p.a == a && p.b == b && (p.slot == Plain || p.slot == BranchData)
  {
    if b == s.id && a in s.dependsOn {
      p := Put(Plain, a, b, a, false);
    } else if s.kind == ConditionalStep {
      p := Put(BranchData, a, b, "", false);
      BranchHasData(s, b);
    } else {
      p := Put(Plain, a, b, if s.kind == LoopStep then "input" else "", s.kind == LoopStep);
    }
  }

  lemma BranchHasData(s: Step, b: StepId)
    requires b != "" && (b == s.trueBranch || b == s.falseBranch)
    ensures Put(BranchData, s.id, b, "", false) in BranchPuts(s)
  {
  }

  lemma EdgeOrigin(steps: Steps, e: Edge) returns (p: Put)
    requires e in CompiledGraph(steps).edges
    ensures p in AllPuts(steps) && p.Made() == e
  {
    StoredFacts([], AllPuts(steps));
    p :| p in AllPuts(steps) && p.Made() == e;
  }

  lemma StoredShape(steps: Steps, p: Put) returns (e: Edge)
    requires NoCollision(steps) && p in AllPuts(steps)
    ensures e in CompiledGraph(steps).edges && SameShape(e, p.Made())
  {
    StoredFacts([], AllPuts(steps));
    assert HasId(CompiledGraph(steps).edges, p.Made().id);
    e :| e in CompiledGraph(steps).edges && e.id == p.Made().id;
    var q := EdgeOrigin(steps, e);
  }

  lemma PutInDataRel(steps: Steps, p: Put)
    requires NoCollision(steps) && p in AllPuts(steps) && p.Made().kind.Data?
    ensures (p.Made().from, p.Made().to) in DataRel(CompiledGraph(steps))
  {
    var e := StoredShape(steps, p);
    DataEdgeInRel(CompiledGraph(steps), e);
  }

  lemma DataFlowOrigin(steps: Steps, a: NodeId, b: NodeId)
    requires (a, b) in DataRel(CompiledGraph(steps))
    ensures FromEntry(steps, a, b) || FeedsIn(steps, a, b) || ToExit(steps, a, b)
  {
    var e := DataRelEdge(CompiledGraph(steps), a, b);
    var p := EdgeOrigin(steps, e);
    PutOrigin(steps, p);
  }

  lemma EntryFlows(steps: Steps, s: Step)
    requires NoCollision(steps) && s in steps && IsEntry(steps, s)
    ensures (INPUT_ID, s.id) in DataRel(CompiledGraph(steps))
  {
    var p := Put(FromInput, INPUT_ID, s.id, "", false);
    assert p in StepPuts(steps, s);
    PutsOfHas(steps, steps);
    PutInDataRel(steps, p);
  }

  lemma ExitFlows(steps: Steps, s: Step)
    requires NoCollision(steps) && s in steps && IsExitStep(steps, s)
    ensures (s.id, OUTPUT_ID) in DataRel(CompiledGraph(steps))
  {
    var p := Put(ToOutput, s.id, OUTPUT_ID, "", false);
    assert p in OutputPuts(steps, steps);
    PutInDataRel(steps, p);
  }

  /** The data flow of the compiled graph, exactly. */
  lemma DataFlowExact(steps: Steps, a: NodeId, b: NodeId)
    requires ValidIntent(steps) && NoCollision(steps)
    ensures (a, b) in DataRel(CompiledGraph(steps)) <==>
            FromEntry(steps, a, b) || FeedsIn(steps, a, b) || ToExit(steps, a, b)
  {
    if (a, b) in DataRel(CompiledGraph(steps)) {
      DataFlowOrigin(steps, a, b);
    } else if FromEntry(steps, a, b) {
      var s :| s in steps && IsEntry(steps, s) && b == s.id;
      EntryFlows(steps, s);
    } else if FeedsIn(steps, a, b) {
      var s :| s in steps && Feeds(s, a, b);
      var p := FeedIsPut(steps, s, a, b);
      PutInDataRel(steps, p);
    } else if ToExit(steps, a, b) {
      var s :| s in steps && IsExitStep(steps, s) && a == s.id;
      ExitFlows(steps, s);
    }
  }

  // ----- structural soundness -----

  ghost predicate NoReservedNames(steps: Steps) {
    INPUT_ID !in Ids(steps) && OUTPUT_ID !in Ids(steps)
  }

  lemma CompiledNodes(steps: Steps)
    ensures WellKeyed(CompiledGraph(steps))
    ensures CompiledGraph(steps).nodes.Keys == {INPUT_ID, OUTPUT_ID} + Elems(Ids(steps))
  {
    var g := CompiledGraph(steps);
    StoredFacts([], AllPuts(steps));
    var ids := [INPUT_ID, OUTPUT_ID] + Ids(steps);
    assert g.nodeIds == FirstSeen(ids);
    assert Elems(ids) == {INPUT_ID, OUTPUT_ID} + Elems(Ids(steps));
  }

  lemma CompiledEndpoint(steps: Steps, e: Edge)
    requires ValidIntent(steps) && NoReservedNames(steps) && e in CompiledGraph(steps).edges
    ensures e.from == INPUT_ID || e.from in Ids(steps)
    ensures e.to == OUTPUT_ID || e.to in Ids(steps)
  {
    var p := EdgeOrigin(steps, e);
    PutOrigin(steps, p);
    if p.slot == FromInput {
      var s :| s in steps && IsEntry(steps, s) && p.b == s.id;
      StepIsListed(steps, s);
    } else if p.slot == ToOutput {
      var s :| s in steps && IsExitStep(steps, s) && p.a == s.id;
      StepIsListed(steps, s);
    } else {
      FeedsStepsOnly(steps, p.a, p.b);
    }
  }

  lemma SomeStepIsExit(steps: Steps) returns (s: Step)
    requires ValidIntent(steps) && steps != []
    ensures s in steps && IsExitStep(steps, s)
  {
    assert Ids(steps)[0] in Elems(Ids(steps));
    var x := AcyclicHasSink(DependsRel(steps), Elems(Ids(steps)));
    var k :| 0 <= k < |steps| && Ids(steps)[k] == x;
    s := steps[k];
    forall t | t in steps ensures s.id !in t.dependsOn {
      StepIsListed(steps, t);
      assert (x, t.id) !in DependsRel(steps);
    }
  }

  lemma StepIdsAreInner(steps: Steps, a: NodeId, b: NodeId)
    requires ValidIntent(steps) && NoCollision(steps) && NoReservedNames(steps)
    requires (a, b) in DataRel(CompiledGraph(steps)) && a != INPUT_ID && b != OUTPUT_ID
    ensures (a, b) in StepRel(steps)
  {
    DataFlowExact(steps, a, b);
    FeedsStepsOnly(steps, a, b);
  }

  lemma StepCycleIsCycle(steps: Steps, p: seq<NodeId>)
    requires ValidIntent(steps) && NoCollision(steps) && IsCycle(StepRel(steps), p)
    ensures IsCycle(DataRel(CompiledGraph(steps)), p)
  {
    forall i | 0 < i < |p| ensures (p[i - 1], p[i]) in DataRel(CompiledGraph(steps)) {
      DataFlowExact(steps, p[i - 1], p[i]);
    }
  }

  lemma FlowEnds(steps: Steps, a: NodeId, b: NodeId)
    requires ValidIntent(steps) && NoReservedNames(steps) && (a, b) in DataRel(CompiledGraph(steps))
    ensures a != OUTPUT_ID && b != INPUT_ID
  {
    var e := DataRelEdge(CompiledGraph(steps), a, b);
    CompiledEndpoint(steps, e);
  }

  /** Input has no way in and output no way out, so a cycle stays among the steps. */
  lemma CycleIsStepCycle(steps: Steps, p: seq<NodeId>)
    requires ValidIntent(steps) && NoCollision(steps) && NoReservedNames(steps)
    requires IsCycle(DataRel(CompiledGraph(steps)), p)
    ensures IsCycle(StepRel(steps), p)
  {
    var n := |p|;
    FlowEnds(steps, p[n - 2], p[n - 1]);
    FlowEnds(steps, p[0], p[1]);
    forall i | 0 < i < |p| ensures (p[i - 1], p[i]) in StepRel(steps) {
      if i > 1 {
        FlowEnds(steps, p[i - 2], p[i - 1]);
      }
      if i + 1 < n {
        assert (p[i], p[i + 1]) in DataRel(CompiledGraph(steps));
        FlowEnds(steps, p[i], p[i + 1]);
      }
      StepIdsAreInner(steps, p[i - 1], p[i]);
    }
  }

  lemma AcyclicJustAsSteps(steps: Steps)
    requires ValidIntent(steps) && NoCollision(steps) && NoReservedNames(steps)
    ensures Acyclic(DataRel(CompiledGraph(steps))) <==> Acyclic(StepRel(steps))
  {
    forall p: seq<NodeId> ensures IsCycle(StepRel(steps), p) <==> IsCycle(DataRel(CompiledGraph(steps)), p) {
      if IsCycle(StepRel(steps), p) {
        StepCycleIsCycle(steps, p);
      } else if IsCycle(DataRel(CompiledGraph(steps)), p) {
        CycleIsStepCycle(steps, p);
      }
    }
  }

  /** Some edge feeds the step: it is an entry step or another step feeds it. */
  ghost predicate Fed(steps: Steps, s: Step) {
    IsEntry(steps, s) || exists a :: (a, s.id) in StepRel(steps)
  }

  lemma IncomingJustWhenFed(steps: Steps, s: Step)
    requires ValidIntent(steps) && NoCollision(steps) && NoReservedNames(steps) && s in steps
    ensures HasIncoming(CompiledGraph(steps), s.id) <==> Fed(steps, s)
  {
    StepIsListed(steps, s);
    if HasIncoming(CompiledGraph(steps), s.id) {
      var e :| e in CompiledGraph(steps).edges && e.to == s.id;
      var p := EdgeOrigin(steps, e);
      PutOrigin(steps, p);
      if p.slot == FromInput {
        var t :| t in steps && IsEntry(steps, t) && s.id == t.id;
        SameIdSameStep(steps, s, t);
      } else {
        FeedsStepsOnly(steps, p.a, p.b);
        assert (p.a, s.id) in StepRel(steps);
      }
    }
    if IsEntry(steps, s) {
      EntryFlows(steps, s);
      var e := DataRelEdge(CompiledGraph(steps), INPUT_ID, s.id);
    } else if a :| (a, s.id) in StepRel(steps) {
      DataFlowExact(steps, a, s.id);
      var e := DataRelEdge(CompiledGraph(steps), a, s.id);
    }
  }

  lemma SameIdSameStep(steps: Steps, s: Step, t: Step)
    requires NoDup(Ids(steps)) && s in steps && t in steps && s.id == t.id
    ensures s == t
  {
    var i :| 0 <= i < |steps| && steps[i] == s;
    var j :| 0 <= j < |steps| && steps[j] == t;
    assert Ids(steps)[i] == Ids(steps)[j];
  }

  /** The registry knows every kind a compiled graph can contain. */
  ghost predicate KnowsCompiledKinds(registry: set<NodeKind>) {
    Input in registry && Output in registry && forall k: StepKind :: KindOf(k) in registry
  }

  lemma {:induction false} CompiledNodeIs(steps: Steps, n: NodeId)
    requires n in NodesFor(steps)
    ensures NodesFor(steps)[n].policy == FailPolicy
    ensures NodesFor(steps)[n].kind == Input || NodesFor(steps)[n].kind == Output ||
            exists s :: s in steps && NodesFor(steps)[n].kind == KindOf(s.kind)
  {
    if steps != [] {
      var init, last := steps[..|steps| - 1], steps[|steps| - 1];
      if n != last.id {
        CompiledNodeIs(init, n);
      } else {
        assert last in steps;
      }
    }
  }

  lemma OutputIsFed(steps: Steps)
    requires ValidIntent(steps) && steps != [] && NoCollision(steps)
    ensures HasIncoming(CompiledGraph(steps), OUTPUT_ID)
  {
    var exit := SomeStepIsExit(steps);
    ExitFlows(steps, exit);
    var out := DataRelEdge(CompiledGraph(steps), exit.id, OUTPUT_ID);
  }

  /** The nodes other than the two ends are the steps. */
  lemma NodesAreSteps(steps: Steps)
    ensures forall s :: s in steps ==> s.id in CompiledGraph(steps).nodes
    ensures forall n :: n in CompiledGraph(steps).nodes && n != INPUT_ID && n != OUTPUT_ID ==> exists s :: s in steps && s.id == n
  {
    CompiledNodes(steps);
    IdsAreSteps(steps);
  }

  lemma IdsAreSteps(steps: Steps)
    ensures forall s :: s in steps ==> s.id in Elems(Ids(steps))
    ensures forall n :: n in Elems(Ids(steps)) ==> exists s :: s in steps && s.id == n
  {
    var ids := Ids(steps);
    forall s | s in steps ensures s.id in ids {
      StepIsListed(steps, s);
    }
    forall n | n in ids ensures exists s :: s in steps && s.id == n {
      var k :| 0 <= k < |ids| && ids[k] == n;
      assert steps[k] in steps;
    }
  }

  lemma NoOrphanJustWhenFed(steps: Steps)
    requires ValidIntent(steps) && steps != [] && NoCollision(steps) && NoReservedNames(steps)
    ensures (forall n :: n in CompiledGraph(steps).nodes && n != INPUT_ID ==> HasIncoming(CompiledGraph(steps), n)) <==>
            (forall s :: s in steps ==> Fed(steps, s))
  {
    var g := CompiledGraph(steps);
    NodesAreSteps(steps);
    OutputIsFed(steps);
    forall s | s in steps ensures s.id in g.nodes && s.id != INPUT_ID && (HasIncoming(g, s.id) <==> Fed(steps, s)) {
      StepIsListed(steps, s);
      IncomingJustWhenFed(steps, s);
    }
  }

  lemma CompiledEnds(steps: Steps)
    requires ValidIntent(steps) && NoReservedNames(steps)
    ensures ValidEndpoints(CompiledGraph(steps)) && CompiledGraph(steps).entryNode in CompiledGraph(steps).nodes
    ensures forall e :: e in CompiledGraph(steps).edges ==> e.to != INPUT_ID && e.from != OUTPUT_ID
    ensures forall n :: n in CompiledGraph(steps).exitNodes ==> n in CompiledGraph(steps).nodes
  {
    var g := CompiledGraph(steps);
    CompiledNodes(steps);
    assert forall n :: n in Ids(steps) ==> n in Elems(Ids(steps));
    forall e | e in g.edges
      ensures e.from in g.nodes && e.to in g.nodes && e.to != INPUT_ID && e.from != OUTPUT_ID
    {
      CompiledEndpoint(steps, e);
    }
    assert forall n :: n in g.nodeIds ==> n in Elems(g.nodeIds);
  }

  lemma CompiledKindsKnown(steps: Steps, registry: set<NodeKind>)
    requires KnowsCompiledKinds(registry)
    ensures forall n :: n in CompiledGraph(steps).nodes ==> CompiledGraph(steps).nodes[n].kind in registry
  {
    forall n | n in NodesFor(steps) ensures NodesFor(steps)[n].kind in registry {
      CompiledNodeIs(steps, n);
    }
  }

  /** What compiles is structurally sound exactly when the union of the relations between
      its steps is acyclic and every step is fed.  Both can be read off the intent. */
  lemma CompiledIsStructural(steps: Steps, registry: set<NodeKind>)
    requires ValidIntent(steps) && steps != [] && NoCollision(steps) && NoReservedNames(steps)
    requires KnowsCompiledKinds(registry)
    ensures Structural(CompiledGraph(steps), Some(registry)) <==>
            Acyclic(StepRel(steps)) && forall s :: s in steps ==> Fed(steps, s)
  {
    AcyclicJustAsSteps(steps);
    NoOrphanJustWhenFed(steps);
    CompiledEnds(steps);
    CompiledKindsKnown(steps, registry);
  }

  /** A compiled graph without parallel steps meets what the scheduler's theorems ask of a
      graph: ids are distinct, and no node is parallel or falls back. */
  lemma CompiledIsSupported(steps: Steps)
    requires forall s :: s in steps ==> s.kind != ParallelStep
    ensures WellKeyed(CompiledGraph(steps)) && Supported(CompiledGraph(steps))
  {
    CompiledNodes(steps);
    forall n | n in NodesFor(steps) ensures NodesFor(steps)[n].kind != Parallel && NodesFor(steps)[n].policy == FailPolicy {
      CompiledNodeIs(steps, n);
    }
  }

  /** An intent without steps compiles to a graph validation refuses. */
  lemma EmptyIntentIsRefused(registry: set<NodeKind>)
    ensures ValidIntent([]) && !Structural(CompiledGraph([]), Some(registry))
  {
    assert forall a, b :: (a, b) !in DependsRel([]);
    forall p: seq<StepId> ensures !IsCycle(DependsRel([]), p) {
      assert |p| >= 2 ==> (p[0], p[1]) !in DependsRel([]);
    }
    assert AllPuts([]) == [];
    assert CompiledGraph([]).edges == [];
    assert OUTPUT_ID in CompiledGraph([]).nodes && !HasIncoming(CompiledGraph([]), OUTPUT_ID);
  }

  lemma ControlPutHasTwin(steps: Steps, s: Step, p: Put)
    requires p in StepPuts(steps, s) && (p.slot == TrueControl || p.slot == FalseControl)
    ensures Put(BranchData, p.a, p.b, "", false) in StepPuts(steps, s)
  {
    StepPutCases(steps, s, p);
    BranchPutIs(s, p);
    StepPutCases(steps, s, Put(BranchData, p.a, p.b, "", false));
  }

  lemma PutOfSomeStep(steps: Steps, p: Put) returns (s: Step)
    requires p in AllPuts(steps) && p.slot != ToOutput
    ensures s in steps && p in StepPuts(steps, s)
  {
    PutsOfHas(steps, steps);
    s :| s in steps && p in StepPuts(steps, s);
  }

  lemma StepPutsAreMade(steps: Steps, s: Step, p: Put)
    requires s in steps && p in StepPuts(steps, s)
    ensures p in AllPuts(steps)
  {
    PutsOfHas(steps, steps);
  }

  /** Every control edge of a compiled graph has a data edge beside it, so its conditional
      comes first in execution order. */
  lemma ControlEdgesHaveTwins(steps: Steps, e: Edge)
    requires NoCollision(steps) && e in CompiledGraph(steps).edges && e.kind.Control?
    ensures (e.from, e.to) in DataRel(CompiledGraph(steps))
  {
    var p := EdgeOrigin(steps, e);
    var s := PutOfSomeStep(steps, p);
    ControlPutHasTwin(steps, s, p);
    StepPutsAreMade(steps, s, Put(BranchData, p.a, p.b, "", false));
    PutInDataRel(steps, Put(BranchData, p.a, p.b, "", false));
  }

  lemma {:induction false} NodeOfStep(steps: Steps, s: Step)
    requires NoDup(Ids(steps)) && s in steps
    ensures s.id in NodesFor(steps) && NodesFor(steps)[s.id].kind == KindOf(s.kind)
  {
    var init, last := steps[..|steps| - 1], steps[|steps| - 1];
    assert steps == init + [last] && Ids(steps) == Ids(init) + [last.id];
    if s == last {
    } else {
      NodeOfStep(init, s);
      StepIsListed(init, s);
      assert s.id != last.id;
    }
  }

  lemma ControlPutIsOwn(steps: Steps, s: Step, p: Put)
    requires p in StepPuts(steps, s) && (p.slot == TrueControl || p.slot == FalseControl)
    ensures s.kind == ConditionalStep && p.a == s.id
  {
    StepPutCases(steps, s, p);
    BranchPutIs(s, p);
  }

  lemma ControlOrigin(steps: Steps, e: Edge) returns (p: Put)
    requires e in CompiledGraph(steps).edges && e.kind.Control?
    ensures p in AllPuts(steps) && (p.slot == TrueControl || p.slot == FalseControl) && e.from == p.a
  {
    p := EdgeOrigin(steps, e);
  }

  lemma ControlPutStep(steps: Steps, p: Put) returns (s: Step)
    requires p in AllPuts(steps) && (p.slot == TrueControl || p.slot == FalseControl)
    ensures s in steps && KindOf(s.kind) == Conditional && s.id == p.a
  {
    s := PutOfSomeStep(steps, p);
    ControlPutIsOwn(steps, s, p);
    ConditionalKind(s);
  }

  lemma ConditionalKind(s: Step)
    requires s.kind == ConditionalStep
    ensures KindOf(s.kind) == Conditional
  {
  }

  lemma ControlStep(steps: Steps, e: Edge) returns (s: Step)
    requires e in CompiledGraph(steps).edges && e.kind.Control?
    ensures s in steps && s.id == e.from && KindOf(s.kind) == Conditional
  {
    var p := ControlOrigin(steps, e);
    s := ControlPutStep(steps, p);
  }

  /** Control edges come from conditionals. */
  lemma ControlComesFromConditionals(steps: Steps, e: Edge)
    requires ValidIntent(steps) && e in CompiledGraph(steps).edges && e.kind.Control?
    ensures e.from in CompiledGraph(steps).nodes && CompiledGraph(steps).nodes[e.from].kind == Conditional
  {
    var s := ControlStep(steps, e);
    NodeKindOf(steps, e.from, s, Conditional);
    CompiledKind(steps, e.from, Conditional);
  }

  lemma NodeKindOf(steps: Steps, n: NodeId, s: Step, kind: NodeKind)
    requires NoDup(Ids(steps)) && s in steps && s.id == n && KindOf(s.kind) == kind
    ensures n in NodesFor(steps) && NodesFor(steps)[n].kind == kind
  {
    NodeOfStep(steps, s);
  }

  lemma CompiledKind(steps: Steps, n: NodeId, kind: NodeKind)
    requires n in NodesFor(steps) && NodesFor(steps)[n].kind == kind
    ensures n in CompiledGraph(steps).nodes && CompiledGraph(steps).nodes[n].kind == kind
  {
  }

  // ----- intents of plain steps -----

  /** Only query, transform, LLM, http and write steps, with no stray body lists. */
  ghost predicate PlainIntent(steps: Steps) {
    forall s :: s in steps ==>
                  && s.kind !in {ConditionalStep, LoopStep, MergeStep, ParallelStep}
                  && s.loopBody == [] && s.parallelBranches == []
  }

  lemma PlainStepsFeedByDependency(steps: Steps)
    requires ValidIntent(steps) && PlainIntent(steps)
    ensures forall a, b :: (a, b) in StepRel(steps) <==> (a, b) in DependsRel(steps)
  {
    forall a, b | (a, b) in DependsRel(steps) ensures (a, b) in StepRel(steps) {
      var s :| s in steps && s.id == b && a in s.dependsOn;
      assert Feeds(s, a, b);
      FeedsStepsOnly(steps, a, b);
    }
  }

  /** A valid intent of plain steps, with at least one step, without colliding edge names or
      reserved ids, has a structurally sound graph. */
  lemma PlainIntentIsStructural(steps: Steps, registry: set<NodeKind>)
    requires ValidIntent(steps) && steps != [] && NoCollision(steps) && NoReservedNames(steps)
    requires PlainIntent(steps) && KnowsCompiledKinds(registry)
    ensures Structural(CompiledGraph(steps), Some(registry))
  {
    PlainStepsFeedByDependency(steps);
    assert StepRel(steps) == DependsRel(steps);
    forall s | s in steps ensures Fed(steps, s) {
      if s.dependsOn != [] {
        assert (s.dependsOn[0], s.id) in DependsRel(steps);
      }
    }
    CompiledIsStructural(steps, registry);
  }

  lemma ReachedThroughDependencies(steps: Steps, s: Step)
    requires ValidIntent(steps) && NoCollision(steps) && s in steps
    requires s.dependsOn == [] ==> IsEntry(steps, s)
    requires forall d :: d in s.dependsOn ==> Reaches(DataRel(CompiledGraph(steps)), INPUT_ID, d)
    ensures Reaches(DataRel(CompiledGraph(steps)), INPUT_ID, s.id)
  {
    var r := DataRel(CompiledGraph(steps));
    if s.dependsOn == [] {
      EntryFlows(steps, s);
      ReachesSelf(r, INPUT_ID);
      ReachesStep(r, INPUT_ID, INPUT_ID, s.id);
    } else {
      var d := s.dependsOn[0];
      assert Feeds(s, d, s.id);
      DataFlowExact(steps, d, s.id);
      ReachesStep(r, INPUT_ID, d, s.id);
    }
  }

  lemma PlainEntries(steps: Steps, s: Step)
    requires PlainIntent(steps) && s in steps && s.dependsOn == []
    ensures IsEntry(steps, s)
  {
  }

  lemma FromInputToStep(steps: Steps, id: StepId)
    requires ValidIntent(steps) && NoCollision(steps) && PlainIntent(steps) && id in Ids(steps)
    ensures Reaches(DataRel(CompiledGraph(steps)), INPUT_ID, id)
  {
    var missed := set i | i in Ids(steps) && !Reaches(DataRel(CompiledGraph(steps)), INPUT_ID, i);
    if missed != {} {
      var x := AcyclicHasSource(DependsRel(steps), missed);
      var k :| 0 <= k < |steps| && Ids(steps)[k] == x;
      forall d | d in steps[k].dependsOn ensures Reaches(DataRel(CompiledGraph(steps)), INPUT_ID, d) {
        assert Feeds(steps[k], d, x) && (d, x) in DependsRel(steps);
        FeedsStepsOnly(steps, d, x);
      }
      if steps[k].dependsOn == [] {
        PlainEntries(steps, steps[k]);
      }
      ReachedThroughDependencies(steps, steps[k]);
      assert false;
    }
    assert id !in missed;
  }

  lemma ReachingThroughDependents(steps: Steps, s: Step)
    requires ValidIntent(steps) && NoCollision(steps) && s in steps
    requires forall t :: t in steps && s.id in t.dependsOn ==> Reaches(DataRel(CompiledGraph(steps)), t.id, OUTPUT_ID)
    ensures Reaches(DataRel(CompiledGraph(steps)), s.id, OUTPUT_ID)
  {
    var r := DataRel(CompiledGraph(steps));
    if IsExitStep(steps, s) {
      ExitFlows(steps, s);
      ReachesSelf(r, OUTPUT_ID);
      ReachesFirst(r, s.id, OUTPUT_ID, OUTPUT_ID);
    } else {
      var t :| t in steps && s.id in t.dependsOn;
      assert Feeds(t, s.id, t.id);
      DataFlowExact(steps, s.id, t.id);
      ReachesFirst(r, s.id, t.id, OUTPUT_ID);
    }
  }

  lemma FromStepToOutput(steps: Steps, id: StepId)
    requires ValidIntent(steps) && NoCollision(steps) && id in Ids(steps)
    ensures Reaches(DataRel(CompiledGraph(steps)), id, OUTPUT_ID)
  {
    var missed := set i | i in Ids(steps) && !Reaches(DataRel(CompiledGraph(steps)), i, OUTPUT_ID);
    if missed != {} {
      var x := AcyclicHasSink(DependsRel(steps), missed);
      var k :| 0 <= k < |steps| && Ids(steps)[k] == x;
      forall t | t in steps && x in t.dependsOn ensures Reaches(DataRel(CompiledGraph(steps)), t.id, OUTPUT_ID) {
        assert (x, t.id) in DependsRel(steps);
        StepIsListed(steps, t);
      }
      ReachingThroughDependents(steps, steps[k]);
      assert false;
    }
    assert id !in missed;
  }

  lemma FlowMeansOutgoing(steps: Steps, a: NodeId, b: NodeId)
    requires (a, b) in DataRel(CompiledGraph(steps))
    ensures HasOutgoingData(CompiledGraph(steps).edges, a)
  {
    var e := DataRelEdge(CompiledGraph(steps), a, b);
  }

  /** A path that leaves `a` starts with an edge out of `a`. */
  lemma ReachesMeansOutgoing(steps: Steps, a: NodeId, b: NodeId)
    requires Reaches(DataRel(CompiledGraph(steps)), a, b) && a != b
    ensures HasOutgoingData(CompiledGraph(steps).edges, a)
  {
    var p: seq<NodeId> :| PathFrom(DataRel(CompiledGraph(steps)), p, a, b);
    assert (p[0], p[1]) in DataRel(CompiledGraph(steps));
    FlowMeansOutgoing(steps, p[0], p[1]);
  }

  /** In the graph of a plain intent every step lies on a path from input to output, and
      output is the only exit node. */
  lemma PlainIntentFlowsThrough(steps: Steps)
    requires ValidIntent(steps) && steps != [] && NoCollision(steps) && NoReservedNames(steps)
    requires PlainIntent(steps)
    ensures forall s :: s in steps ==>
                          && Reaches(DataRel(CompiledGraph(steps)), INPUT_ID, s.id)
                          && Reaches(DataRel(CompiledGraph(steps)), s.id, OUTPUT_ID)
    ensures CompiledGraph(steps).exitNodes == [OUTPUT_ID]
  {
    forall s | s in steps
      ensures StepFlows(steps, s)
    {
      StepIsOnTheWay(steps, s);
    }
    PlainExits(steps);
  }

  /** A path from input, a path to output, and so an edge out. */
  ghost predicate StepFlows(steps: Steps, s: Step) {
    && Reaches(DataRel(CompiledGraph(steps)), INPUT_ID, s.id)
    && Reaches(DataRel(CompiledGraph(steps)), s.id, OUTPUT_ID)
    && HasOutgoingData(CompiledGraph(steps).edges, s.id)
  }

  lemma StepIsOnTheWay(steps: Steps, s: Step)
    requires ValidIntent(steps) && NoCollision(steps) && NoReservedNames(steps) && PlainIntent(steps) && s in steps
    ensures StepFlows(steps, s)
  {
    StepIsListed(steps, s);
    FromInputToStep(steps, s.id);
    FromStepToOutput(steps, s.id);
    ReachesMeansOutgoing(steps, s.id, OUTPUT_ID);
  }

  lemma PlainExits(steps: Steps)
    requires ValidIntent(steps) && steps != [] && NoCollision(steps) && NoReservedNames(steps)
    requires forall s :: s in steps ==> StepFlows(steps, s)
    ensures CompiledGraph(steps).exitNodes == [OUTPUT_ID]
  {
    var edges := CompiledGraph(steps).edges;
    assert StepFlows(steps, steps[0]);
    StepIsListed(steps, steps[0]);
    ReachesMeansOutgoing(steps, INPUT_ID, steps[0].id);
    forall e | e in edges ensures e.from != OUTPUT_ID {
      CompiledEndpoint(steps, e);
    }
    forall n | n in Ids(steps) ensures HasOutgoingData(edges, n) {
      var k :| 0 <= k < |steps| && Ids(steps)[k] == n;
      assert StepFlows(steps, steps[k]);
    }
    OnlyOutputExits(steps, edges);
  }

  lemma OnlyOutputExits(steps: Steps, edges: seq<Edge>)
    requires NoDup(Ids(steps)) && NoReservedNames(steps)
    requires HasOutgoingData(edges, INPUT_ID) && !HasOutgoingData(edges, OUTPUT_ID)
    requires forall n :: n in Ids(steps) ==> HasOutgoingData(edges, n)
    ensures NodesWithoutOutgoing(FirstSeen([INPUT_ID, OUTPUT_ID] + Ids(steps)), edges) == [OUTPUT_ID]
  {
    var ids := [INPUT_ID, OUTPUT_ID] + Ids(steps);
    assert NoDup(ids);
    var p := n => !HasOutgoingData(edges, n);
    assert ids[1..] == [OUTPUT_ID] + Ids(steps);
    assert ids[1..][1..] == Ids(steps);
    if Filter(Ids(steps), p) != [] {
      assert Filter(Ids(steps), p)[0] in Filter(Ids(steps), p);
    }
    assert Filter(ids, p) == Filter(ids[1..], p) == [OUTPUT_ID] + Filter(Ids(steps), p);
  }
}
