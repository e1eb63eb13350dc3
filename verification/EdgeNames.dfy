/** When edge ids collide.  Ids are built by joining step ids with underscores, so step ids
    without underscores keep them apart; with underscores one edge can replace another. */
module EdgeNames {
  import opened Common
  import opened Digraph
  import opened PipelineGraph
  import opened GraphUtils
  import opened CycleDetection
  import opened PipelineCompiler
  import opened CompiledGraphs

  /** The parts of a name between its underscores. */
  function Pieces(s: string): (r: seq<string>)
    ensures |r| >= 1
  {
    if s == "" then [""]
    else
      var rest := Pieces(s[1..]);
      if s[0] == '_' then [""] + rest else [[s[0]] + rest[0]] + rest[1..]
  }

  lemma {:induction false} PiecesJoin(x: string, y: string)
    ensures Pieces(x + "_" + y) == Pieces(x) + Pieces(y)
  {
    var all := x + "_" + y;
    if x == "" {
      assert all[1..] == y;
    } else {
      assert all[1..] == x[1..] + "_" + y;
      PiecesJoin(x[1..], y);
    }
  }

  lemma {:induction false} PiecesWhole(x: string)
    requires '_' !in x
    ensures Pieces(x) == [x]
  {
    if x != "" {
      PiecesWhole(x[1..]);
      assert [x[0]] + x[1..] == x;
    }
  }

  lemma PiecesSnoc(x: string, y: string)
    requires '_' !in y
    ensures Pieces(x + "_" + y) == Pieces(x) + [y]
  {
    PiecesJoin(x, y);
    PiecesWhole(y);
  }

  ghost predicate Unbroken(id: StepId) {
    id != "" && '_' !in id
  }

  lemma PairPieces(a: StepId, b: StepId)
    requires Unbroken(a) && Unbroken(b)
    ensures Pieces("e_" + a + "_" + b) == ["e", a, b]
  {
    PiecesWhole("e");
    PiecesSnoc("e", a);
    PiecesSnoc("e" + "_" + a, b);
    assert "e_" + a + "_" + b == ("e" + "_" + a) + "_" + b;
  }

  lemma ControlPieces(a: StepId, b: StepId, which: string)
    requires Unbroken(a) && Unbroken(b) && '_' !in which
    ensures Pieces("e_" + a + "_" + b + "_control_" + which) == ["e", a, b, "control", which]
  {
    var base := "e_" + a + "_" + b;
    PairPieces(a, b);
    PiecesSnoc(base, "control");
    PiecesSnoc(base + "_" + "control", which);
    assert base + "_control_" + which == (base + "_" + "control") + "_" + which;
  }

  lemma EntryPieces(b: StepId)
    requires Unbroken(b)
    ensures Pieces("e__input_" + b) == ["e", "", "input", b]
  {
    PiecesWhole("e");
    PiecesSnoc("e", "");
    PiecesSnoc("e" + "_" + "", "input");
    PiecesSnoc("e" + "_" + "" + "_" + "input", b);
    assert "e__input_" + b == ("e" + "_" + "" + "_" + "input") + "_" + b;
  }

  lemma TruePieces(a: StepId, b: StepId)
    requires Unbroken(a) && Unbroken(b)
    ensures Pieces("e_" + a + "_" + b + "_control_true") == ["e", a, b, "control", "true"]
  {
    ControlPieces(a, b, "true");
    assert "_control_" + "true" == "_control_true";
    assert "e_" + a + "_" + b + "_control_true" == "e_" + a + "_" + b + "_control_" + "true";
  }

  lemma FalsePieces(a: StepId, b: StepId)
    requires Unbroken(a) && Unbroken(b)
    ensures Pieces("e_" + a + "_" + b + "_control_false") == ["e", a, b, "control", "false"]
  {
    ControlPieces(a, b, "false");
    assert "_control_" + "false" == "_control_false";
    assert "e_" + a + "_" + b + "_control_false" == "e_" + a + "_" + b + "_control_" + "false";
  }

  lemma DataPieces(a: StepId, b: StepId)
    requires Unbroken(a) && Unbroken(b)
    ensures Pieces("e_" + a + "_" + b + "_data") == ["e", a, b, "data"]
  {
    var base := "e_" + a + "_" + b;
    PairPieces(a, b);
    PiecesSnoc(base, "data");
    assert base + "_data" == base + "_" + "data";
  }

  lemma OutputPieces(a: StepId)
    requires Unbroken(a)
    ensures Pieces(a + "->_output") == [a + "->", "output"]
  {
    PiecesWhole(a + "->");
    PiecesSnoc(a + "->", "output");
    assert a + "->_output" == (a + "->") + "_" + "output";
  }

  /** The kind of an edge and the names in it can be read back from the pieces of an edge name. */
  lemma NamePieces(p: Put)
    requires p.slot != FromInput ==> Unbroken(p.a)
    requires p.slot != ToOutput ==> Unbroken(p.b)
    ensures Pieces(p.Made().id) ==
            match p.slot
            case FromInput => ["e", "", "input", p.b]
            case Plain => ["e", p.a, p.b]
            case TrueControl => ["e", p.a, p.b, "control", "true"]
            case FalseControl => ["e", p.a, p.b, "control", "false"]
            case BranchData => ["e", p.a, p.b, "data"]
            case ToOutput => [p.a + "->", "output"]
  {
    match p.slot
    case FromInput => EntryPieces(p.b);
    case Plain => PairPieces(p.a, p.b);
    case TrueControl => TruePieces(p.a, p.b);
    case FalseControl => FalsePieces(p.a, p.b);
    case BranchData => DataPieces(p.a, p.b);
    case ToOutput => OutputPieces(p.a);
  }

  lemma PutNamesSteps(steps: Steps, p: Put)
    requires ValidIntent(steps) && p in AllPuts(steps)
    ensures p.slot != FromInput ==> p.a in Ids(steps)
    ensures p.slot != ToOutput ==> p.b in Ids(steps)
  {
    PutOrigin(steps, p);
    if p.slot == FromInput {
      var s :| s in steps && IsEntry(steps, s) && p.b == s.id;
      StepIsListed(steps, s);
    } else if p.slot == ToOutput {
      var s :| s in steps && IsExitStep(steps, s) && p.a == s.id;
      StepIsListed(steps, s);
    } else {
      FeedsStepsOnly(steps, p.a, p.b);
    }
  }

  lemma SameNameSameShape(p: Put, q: Put)
    requires p.slot != FromInput ==> Unbroken(p.a)
    requires p.slot != ToOutput ==> Unbroken(p.b)
    requires q.slot != FromInput ==> Unbroken(q.a)
    requires q.slot != ToOutput ==> Unbroken(q.b)
    requires p.Made().id == q.Made().id
    ensures SameShape(p.Made(), q.Made())
  {
    NamePieces(p);
    NamePieces(q);
    var x, y := Pieces(p.Made().id), Pieces(q.Made().id);
    assert |x| == |y| && x[0] == y[0] && x[1] == y[1] && x[|x| - 1] == y[|y| - 1];
    assert |x| > 2 ==> x[2] == y[2];
    if p.slot == ToOutput && q.slot == ToOutput {
      assert p.a == (p.a + "->")[..|p.a|] == q.a;
    }
  }

  /** Non-empty step ids without underscores never collide. */
  lemma UnbrokenIdsDoNotCollide(steps: Steps)
    requires ValidIntent(steps)
    requires forall id :: id in Ids(steps) ==> Unbroken(id)
    ensures NoCollision(steps) && NoReservedNames(steps)
  {
    forall p, q | p in AllPuts(steps) && q in AllPuts(steps) && p.Made().id == q.Made().id
      ensures SameShape(p.Made(), q.Made())
    {
      PutNamesSteps(steps, p);
      PutNamesSteps(steps, q);
      SameNameSameShape(p, q);
    }
    assert INPUT_ID[0] == '_' && OUTPUT_ID[0] == '_';
  }

  // ----- collisions -----

  ghost predicate Kept(steps: Steps, p: Put) {
    exists e :: e in CompiledGraph(steps).edges && e.id == p.Made().id && SameShape(e, p.Made())
  }

  lemma KeptWithoutCollision(steps: Steps, p: Put)
    requires NoCollision(steps) && p in AllPuts(steps)
    ensures Kept(steps, p)
  {
    StoredFacts([], AllPuts(steps));
    assert HasId(CompiledGraph(steps).edges, p.Made().id);
    var e :| e in CompiledGraph(steps).edges && e.id == p.Made().id;
    var q := EdgeOrigin(steps, e);
  }

  lemma KeptMeansOneShape(steps: Steps, p: Put, q: Put)
    requires Kept(steps, p) && Kept(steps, q) && p.Made().id == q.Made().id
    ensures SameShape(p.Made(), q.Made())
  {
    StoredFacts([], AllPuts(steps));
    var e :| e in CompiledGraph(steps).edges && e.id == p.Made().id && SameShape(e, p.Made());
    var f :| f in CompiledGraph(steps).edges && f.id == q.Made().id && SameShape(f, q.Made());
    SameIdSameEdge(CompiledGraph(steps), e, f);
  }

  /** Every edge the compiler makes is in the graph exactly when no two edges of different
      shape share an id. */
  lemma EdgesKeptJustWithoutCollision(steps: Steps)
    ensures NoCollision(steps) <==> forall p :: p in AllPuts(steps) ==> Kept(steps, p)
  {
    if NoCollision(steps) {
      forall p | p in AllPuts(steps) ensures Kept(steps, p) {
        KeptWithoutCollision(steps, p);
      }
    }
    if forall p :: p in AllPuts(steps) ==> Kept(steps, p) {
      forall p, q | p in AllPuts(steps) && q in AllPuts(steps) && p.Made().id == q.Made().id
        ensures SameShape(p.Made(), q.Made())
      {
        KeptMeansOneShape(steps, p, q);
      }
    }
  }

  function PlainStep(id: StepId, dependsOn: seq<StepId>): Step {
    Step(id, TransformStep, dependsOn, "", "", "", [], ForEach, None, [], [], false)
  }

  /** Two steps, and a step depending on each. */
  function TwoPairs(a: StepId, b: StepId, c: StepId, d: StepId): Steps {
    [PlainStep(a, []), PlainStep(b, []), PlainStep(c, [a]), PlainStep(d, [b])]
  }

  lemma TwoPairsMembers(a: StepId, b: StepId, c: StepId, d: StepId, s: Step)
    ensures s in TwoPairs(a, b, c, d) <==>
            s == PlainStep(a, []) || s == PlainStep(b, []) || s == PlainStep(c, [a]) || s == PlainStep(d, [b])
    ensures Ids(TwoPairs(a, b, c, d)) == [a, b, c, d]
  {
  }

  lemma TwoPairsDepend(a: StepId, b: StepId, c: StepId, d: StepId, x: StepId, y: StepId)
    ensures (x, y) in DependsRel(TwoPairs(a, b, c, d)) <==> (x == a && y == c) || (x == b && y == d)
  {
    var steps := TwoPairs(a, b, c, d);
    assert steps[2] in steps && steps[3] in steps && a in [a] && b in [b];
    if (x, y) in DependsRel(steps) {
      var s :| s in steps && s.id == y && x in s.dependsOn;
      TwoPairsMembers(a, b, c, d, s);
    }
  }

  lemma TwoPairsAcyclic(a: StepId, b: StepId, c: StepId, d: StepId)
    requires NoDup([a, b, c, d])
    ensures Acyclic(DependsRel(TwoPairs(a, b, c, d)))
  {
    var r, order := DependsRel(TwoPairs(a, b, c, d)), [a, b, c, d];
    forall x, j: nat | j < |order| && (x, order[j]) in r ensures x in order[..j] {
      TwoPairsDepend(a, b, c, d, x, order[j]);
      assert order[0] == a && order[1] == b && order[2] == c && order[3] == d;
      assert j == 2 || j == 3;
      assert order[..j][0] == a && order[..j][1] == b;
    }
    forall e | e in r ensures e.1 in order {
      TwoPairsDepend(a, b, c, d, e.0, e.1);
    }
    OrderedIsAcyclic(r, order);
  }

  lemma TwoPairsRefer(a: StepId, b: StepId, c: StepId, d: StepId, s: Step)
    requires s in TwoPairs(a, b, c, d)
    ensures WellReferenced(s, {a, b, c, d})
    ensures s.kind == TransformStep && s.loopBody == [] && s.parallelBranches == []
  {
    TwoPairsMembers(a, b, c, d, s);
  }

  lemma TwoPairsAreValid(a: StepId, b: StepId, c: StepId, d: StepId)
    requires NoDup([a, b, c, d])
    ensures ValidIntent(TwoPairs(a, b, c, d)) && PlainIntent(TwoPairs(a, b, c, d))
  {
    var steps := TwoPairs(a, b, c, d);
    TwoPairsMembers(a, b, c, d, PlainStep(a, []));
    TwoPairsAcyclic(a, b, c, d);
    assert Elems([a, b, c, d]) == {a, b, c, d};
    forall s | s in steps
      ensures WellReferenced(s, Elems(Ids(steps)))
      ensures s.kind == TransformStep && s.loopBody == [] && s.parallelBranches == []
    {
      TwoPairsRefer(a, b, c, d, s);
    }
  }

  lemma PlainStepPuts(steps: Steps, id: StepId, deps: seq<StepId>)
    requires deps != []
    ensures StepPuts(steps, PlainStep(id, deps)) == PutsTo(deps, id, true)
    ensures forall x: StepId :: deps == [x] ==> PutsTo(deps, id, true) == [Put(Plain, x, id, x, false)]
  {
    assert deps[1..] == [] ==> PutsTo(deps[1..], id, true) == [];
  }

  /** If the two dependency edges get one id, the first step's dependent is orphaned. */
  lemma CollidingPairsOrphan(a: StepId, b: StepId, c: StepId, d: StepId, registry: set<NodeKind>)
    requires NoDup([a, b, c, d])
    requires c != INPUT_ID && c != OUTPUT_ID
    requires EdgeName(Plain, a, c) == EdgeName(Plain, b, d)
    requires forall i: StepId :: i + "->_output" != EdgeName(Plain, b, d)
    ensures !HasIncoming(CompiledGraph(TwoPairs(a, b, c, d)), c)
    ensures !Structural(CompiledGraph(TwoPairs(a, b, c, d)), Some(registry))
  {
    var g := CompiledGraph(TwoPairs(a, b, c, d));
    TwoPairsMembers(a, b, c, d, PlainStep(c, [a]));
    CompiledNodes(TwoPairs(a, b, c, d));
    assert [a, b, c, d][2] == c && c in Elems([a, b, c, d]);
    LaterPairStays(a, b, c, d);
    forall e | e in g.edges ensures e.to != c {
      NothingInto(a, b, c, d, e);
    }
    OrphanIsRefused(g, c, registry);
  }

  lemma OrphanIsRefused(g: Graph, c: NodeId, registry: set<NodeKind>)
    requires c in g.nodes && c != g.entryNode && forall e :: e in g.edges ==> e.to != c
    ensures !HasIncoming(g, c) && !Structural(g, Some(registry))
  {
  }

  lemma NothingInto(a: StepId, b: StepId, c: StepId, d: StepId, e: Edge)
    requires NoDup([a, b, c, d]) && c != OUTPUT_ID
    requires EdgeName(Plain, a, c) == EdgeName(Plain, b, d)
    requires Put(Plain, b, d, b, false).Made() in CompiledGraph(TwoPairs(a, b, c, d)).edges
    requires e in CompiledGraph(TwoPairs(a, b, c, d)).edges
    ensures e.to != c
  {
    var steps := TwoPairs(a, b, c, d);
    assert [a, b, c, d][2] != [a, b, c, d][3];
    CompiledNodes(steps);
    if e.to == c {
      var p := EdgeOrigin(steps, e);
      OnlyPutInto(a, b, c, d, p);
      SameIdSameEdge(CompiledGraph(steps), e, Put(Plain, b, d, b, false).Made());
      assert false;
    }
  }

  lemma OnlyPutInto(a: StepId, b: StepId, c: StepId, d: StepId, p: Put)
    requires NoDup([a, b, c, d]) && c != OUTPUT_ID
    requires p in AllPuts(TwoPairs(a, b, c, d)) && p.Made().to == c
    ensures p.slot == Plain && p.a == a && p.b == c
  {
    var steps := TwoPairs(a, b, c, d);
    PutsOfHas(steps, steps);
    assert p.slot != ToOutput && p in PutsOf(steps, steps);
    var s :| s in steps && p in StepPuts(steps, s);
    StepPutOrigin(steps, s, p);
    TwoPairsMembers(a, b, c, d, s);
    assert [a, b, c, d][2] == c && [a, b, c, d][0] == a && [a, b, c, d][1] == b && [a, b, c, d][3] == d;
    assert s == PlainStep(c, [a]);
    PlainStepPuts(steps, c, [a]);
  }

  /** An edge that no later edge shares its id with is in the graph. */
  lemma LastPutStays(before: seq<Put>, p: Put, after: seq<Put>)
    requires !p.keepOld && forall q :: q in after ==> q.Made().id != p.Made().id
    ensures p.Made() in Stored([], before + [p] + after)
  {
    StoredConcat([], before + [p], after);
    StoredConcat([], before, [p]);
    var held := Store(Stored([], before), p.Made(), false);
    assert Stored(Stored([], before), [p]) == Stored(held, []) == held;
    StoreHolds(Stored([], before), p.Made());
    Survives(held, p.Made(), after);
  }

  lemma LastPairPuts(a: StepId, b: StepId, c: StepId, d: StepId)
    ensures var steps := TwoPairs(a, b, c, d);
            AllPuts(steps) == PutsOf(steps, steps[..3]) + [Put(Plain, b, d, b, false)] + OutputPuts(steps, steps)
  {
    var steps := TwoPairs(a, b, c, d);
    assert steps[..4] == steps;
    PutsOfOneMore(steps, 3);
    PlainStepPuts(steps, d, [b]);
  }

  lemma LaterPairStays(a: StepId, b: StepId, c: StepId, d: StepId)
    requires forall i: StepId :: i + "->_output" != EdgeName(Plain, b, d)
    ensures Put(Plain, b, d, b, false).Made() in CompiledGraph(TwoPairs(a, b, c, d)).edges
  {
    var steps := TwoPairs(a, b, c, d);
    var p := Put(Plain, b, d, b, false);
    var after := OutputPuts(steps, steps);
    LastPairPuts(a, b, c, d);
    forall q | q in after ensures q.Made().id != p.Made().id {
      assert q.slot == ToOutput;
      assert q.a + "->_output" != EdgeName(Plain, b, d);
    }
    LastPutStays(PutsOf(steps, steps[..3]), p, after);
  }

  lemma {:induction false} Survives(edges: seq<Edge>, e: Edge, puts: seq<Put>)
    requires e in edges && forall q :: q in puts ==> q.Made().id != e.id
    ensures e in Stored(edges, puts)
    decreases puts
  {
    if puts != [] {
      StoreKeeps(edges, e, puts[0].Made(), puts[0].keepOld);
      Survives(Store(edges, puts[0].Made(), puts[0].keepOld), e, puts[1..]);
    }
  }

  lemma {:induction false} StoreKeeps(edges: seq<Edge>, e: Edge, f: Edge, keepOld: bool)
    requires e in edges && e.id != f.id
    ensures e in Store(edges, f, keepOld)
  {
    if edges[0].id == f.id {
      assert e in edges[1..];
    } else if e != edges[0] {
      StoreKeeps(edges[1..], e, f, keepOld);
    }
  }

  lemma {:induction false} StoreHolds(edges: seq<Edge>, e: Edge)
    ensures e in Store(edges, e, false)
  {
    if edges != [] && edges[0].id != e.id {
      StoreHolds(edges[1..], e);
    }
  }

  /** a -> b_c and a_b -> c both give the id e_a_b_c.  So a valid intent of plain steps can
      compile to a graph that validation refuses. */
  lemma ValidIntentCanBeRefused(registry: set<NodeKind>)
    ensures ValidIntent(TwoPairs("a", "a_b", "b_c", "c")) && PlainIntent(TwoPairs("a", "a_b", "b_c", "c"))
    ensures !Structural(CompiledGraph(TwoPairs("a", "a_b", "b_c", "c")), Some(registry))
  {
    assert |"a"| < |"a_b"| && "a"[0] != "b_c"[0] && "a"[0] != "c"[0];
    assert "a_b"[0] != "b_c"[0] && "a" != "a_b" && |"c"| < |"a_b"| && |"c"| < |"b_c"|;
    assert "b_c"[0] != INPUT_ID[0] && "b_c"[0] != OUTPUT_ID[0];
    assert EdgeName(Plain, "a", "b_c") == "e_a_b_c" == EdgeName(Plain, "a_b", "c");
    forall i: StepId ensures i + "->_output" != "e_a_b_c" {
      assert (i + "->_output")[|i| + 8] == 't' && "e_a_b_c"[6] == 'c';
    }
    TwoPairsAreValid("a", "a_b", "b_c", "c");
    CollidingPairsOrphan("a", "a_b", "b_c", "c", registry);
  }
}
