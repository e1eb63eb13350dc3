/** The pipeline compiler: validation of step intents, and the graph built from them.
    Edge ids are the strings the compiler builds, and a second edge under the same id
    replaces the first, as in its Map. */
module PipelineCompiler {
  import opened Common
  import opened Digraph
  import opened PipelineGraph
  import opened GraphUtils
  import opened CycleDetection

  datatype StepKind =
    | QueryStep | TransformStep | LlmStep | HttpStep | WriteStep
    | ConditionalStep | LoopStep | MergeStep | ParallelStep

  /** A step intent; absent names are "" and absent lists are empty, which the compiler
      treats alike.  `staticInput` says that the configuration of a write or http step
      carries the filter, values or address that make a dependency unnecessary. */
  datatype Step = Step(
    id: StepId, kind: StepKind, dependsOn: seq<StepId>,
    trueBranch: StepId, falseBranch: StepId, mergeStep: StepId,
    loopBody: seq<StepId>, loopMode: LoopMode, maxIterations: Option<int>,
    mergeFrom: seq<StepId>, parallelBranches: seq<StepId>,
    staticInput: bool)

  type Steps = seq<Step>

  const INPUT_ID: NodeId := "_input"

  function Ids(steps: Steps): (r: seq<StepId>)
    ensures |r| == |steps| && forall i :: 0 <= i < |steps| ==> r[i] == steps[i].id
  {
    seq(|steps|, i requires 0 <= i < |steps| => steps[i].id)
  }

  // ----- validation -----

  datatype IntentCode =
    | DuplicateStepId | InvalidDependency
    | MissingTrueBranch | InvalidTrueBranch | MissingFalseBranch | InvalidFalseBranch | InvalidMergeStep
    | MissingLoopBody | InvalidLoopBody | InvalidMergeFrom | InvalidMergeSource
    | MissingParallelBranches | InvalidParallelBranch | CycleInDependencies
    | WriteMissingInput | HttpMissingInput

  datatype IntentError = IntentError(step: StepId, code: IntentCode)

  function Unknown(names: seq<StepId>, ids: set<StepId>, step: StepId, code: IntentCode): (r: seq<IntentError>)
    ensures r == [] <==> forall n :: n in names ==> n in ids
  {
    if names == [] then []
    else
      assert names[0] in names;
      (if names[0] in ids then [] else [IntentError(step, code)]) + Unknown(names[1..], ids, step, code)
  }

  function BranchErrors(s: Step, ids: set<StepId>): seq<IntentError> {
    if s.kind != ConditionalStep then []
    else
      (if s.trueBranch == "" then [IntentError(s.id, MissingTrueBranch)]
       else Unknown([s.trueBranch], ids, s.id, InvalidTrueBranch))
      + (if s.falseBranch == "" then [IntentError(s.id, MissingFalseBranch)]
         else Unknown([s.falseBranch], ids, s.id, InvalidFalseBranch))
      + (if s.mergeStep == "" then [] else Unknown([s.mergeStep], ids, s.id, InvalidMergeStep))
  }

  function LoopErrors(s: Step, ids: set<StepId>): seq<IntentError> {
    if s.kind != LoopStep then []
    else if s.loopBody == [] then [IntentError(s.id, MissingLoopBody)]
    else Unknown(s.loopBody, ids, s.id, InvalidLoopBody)
  }

  function MergeErrors(s: Step, ids: set<StepId>): seq<IntentError> {
    if s.kind != MergeStep then []
    else if |s.mergeFrom| < 2 then [IntentError(s.id, InvalidMergeFrom)]
    else Unknown(s.mergeFrom, ids, s.id, InvalidMergeSource)
  }

  function ParallelErrors(s: Step, ids: set<StepId>): seq<IntentError> {
    if s.kind != ParallelStep then []
    else if s.parallelBranches == [] then [IntentError(s.id, MissingParallelBranches)]
    else Unknown(s.parallelBranches, ids, s.id, InvalidParallelBranch)
  }

  function InputErrors(s: Step): seq<IntentError> {
    if s.kind == WriteStep && s.dependsOn == [] && !s.staticInput then [IntentError(s.id, WriteMissingInput)]
    else if s.kind == HttpStep && s.dependsOn == [] && !s.staticInput then [IntentError(s.id, HttpMissingInput)]
    else []
  }

  /** The references of a step that name other steps all do so. */
  ghost predicate WellReferenced(s: Step, ids: set<StepId>) {
    && (forall d :: d in s.dependsOn ==> d in ids)
    && (s.kind == ConditionalStep ==>
          && s.trueBranch != "" && s.trueBranch in ids
          && s.falseBranch != "" && s.falseBranch in ids
          && (s.mergeStep == "" || s.mergeStep in ids))
    && (s.kind == LoopStep ==> s.loopBody != [] && forall b :: b in s.loopBody ==> b in ids)
    && (s.kind == MergeStep ==> |s.mergeFrom| >= 2 && forall f :: f in s.mergeFrom ==> f in ids)
    && (s.kind == ParallelStep ==> s.parallelBranches != [] && forall b :: b in s.parallelBranches ==> b in ids)
    && (s.kind == WriteStep || s.kind == HttpStep ==> s.dependsOn != [] || s.staticInput)
  }

  ghost predicate ValidIntent(steps: Steps) {
    && NoDup(Ids(steps))
    && (forall s :: s in steps ==> WellReferenced(s, Elems(Ids(steps))))
    && Acyclic(DependsRel(steps))
  }

  /** The pairs (dependency, dependent) of the steps. */
  ghost function DependsRel(steps: Steps): (r: Rel<StepId>)
    ensures forall a, b :: (a, b) in r <==> exists s :: s in steps && s.id == b && a in s.dependsOn
  {
    set s, a | s in steps && a in s.dependsOn :: (a, s.id)
  }

  /** A later step with the same id takes over, as when a Map is filled. */
  function DependencyMap(steps: Steps): (r: Dependencies)
    ensures r.Keys == Elems(Ids(steps))
  {
    if steps == [] then map[]
    else
      var init, last := steps[..|steps| - 1], steps[|steps| - 1];
      assert steps == init + [last];
      assert Ids(steps) == Ids(init) + [last.id];
      DependencyMap(init)[last.id := last.dependsOn]
  }

  lemma {:induction false} DependencyMapAt(steps: Steps, s: Step)
    requires NoDup(Ids(steps)) && s in steps
    ensures s.id in DependencyMap(steps) && DependencyMap(steps)[s.id] == s.dependsOn
  {
    var init, last := steps[..|steps| - 1], steps[|steps| - 1];
    if s != last {
      var k :| 0 <= k < |steps| && steps[k] == s;
      assert init[k] == s;
      assert Ids(init) == Ids(steps)[..|init|];
      DependencyMapAt(init, s);
      assert Ids(steps)[k] != Ids(steps)[|init|];
    }
  }

  lemma NeedsJustWhenDepends(steps: Steps, a: StepId, b: StepId)
    requires NoDup(Ids(steps))
    ensures (a, b) in Needs(DependencyMap(steps)) <==> (a, b) in DependsRel(steps)
  {
    if (a, b) in DependsRel(steps) {
      var s :| s in steps && s.id == b && a in s.dependsOn;
      DependencyMapAt(steps, s);
    }
    if (a, b) in Needs(DependencyMap(steps)) {
      var k :| 0 <= k < |steps| && Ids(steps)[k] == b;
      DependencyMapAt(steps, steps[k]);
      assert steps[k] in steps;
    }
  }

  lemma NeedsIsDependsRel(steps: Steps)
    requires NoDup(Ids(steps))
    ensures Needs(DependencyMap(steps)) == DependsRel(steps)
  {
    var needs, depends := Needs(DependencyMap(steps)), DependsRel(steps);
    forall e: (StepId, StepId) ensures e in needs <==> e in depends {
      NeedsJustWhenDepends(steps, e.0, e.1);
    }
  }

  /** Validation accepts exactly the valid intents. */
  method Validate(steps: Steps) returns (errors: seq<IntentError>)
    ensures errors == [] <==> ValidIntent(steps)
  {
    var duplicates := DuplicateErrors(steps);
    var references, inputs := ReferenceErrors(steps);
    var cycles := DetectCycles(Ids(steps), DependencyMap(steps));
    var cycleErrors := seq(|cycles|, k requires 0 <= k < |cycles| => IntentError(cycles[k], CycleInDependencies));
    errors := duplicates + references + cycleErrors + inputs;
    if NoDup(Ids(steps)) {
      NeedsIsDependsRel(steps);
    }
  }

  method DuplicateErrors(steps: Steps) returns (errors: seq<IntentError>)
    ensures errors == [] <==> NoDup(Ids(steps))
  {
    errors := [];
    var seen: set<StepId> := {};
    for k := 0 to |steps|
      invariant seen == Elems(Ids(steps[..k]))
      invariant errors == [] <==> NoDup(Ids(steps[..k]))
    {
      var s := steps[k];
      assert Ids(steps[..k + 1]) == Ids(steps[..k]) + [s.id];
      assert s.id in seen <==> s.id in Ids(steps[..k]);
      if s.id in seen {
        errors := errors + [IntentError(s.id, DuplicateStepId)];
      }
      seen := seen + {s.id};
    }
    assert steps[..|steps|] == steps;
  }

  /** One pass over the steps for one check. */
  method Check(steps: Steps, check: Step -> seq<IntentError>) returns (errors: seq<IntentError>)
    ensures errors == [] <==> forall s :: s in steps ==> check(s) == []
  {
    errors := [];
    for k := 0 to |steps|
      invariant errors == [] <==> forall j :: 0 <= j < k ==> check(steps[j]) == []
    {
      errors := errors + check(steps[k]);
    }
  }

  method ReferenceErrors(steps: Steps) returns (errors: seq<IntentError>, inputErrors: seq<IntentError>)
    ensures errors + inputErrors == [] <==> forall s :: s in steps ==> WellReferenced(s, Elems(Ids(steps)))
  {
    var ids := Elems(Ids(steps));
    var dependency := Check(steps, (s: Step) => Unknown(s.dependsOn, ids, s.id, InvalidDependency));
    var branch := Check(steps, (s: Step) => BranchErrors(s, ids));
    var loop := Check(steps, (s: Step) => LoopErrors(s, ids));
    var merge := Check(steps, (s: Step) => MergeErrors(s, ids));
    var parallel := Check(steps, (s: Step) => ParallelErrors(s, ids));
    errors := dependency + branch + loop + merge + parallel;
    inputErrors := Check(steps, (s: Step) => InputErrors(s));
    forall s | s in steps {
      NoErrorMeansReferenced(s, ids);
    }
  }

  lemma NoErrorMeansReferenced(s: Step, ids: set<StepId>)
    ensures WellReferenced(s, ids) <==>
            && Unknown(s.dependsOn, ids, s.id, InvalidDependency) == []
            && BranchErrors(s, ids) == [] && LoopErrors(s, ids) == []
            && MergeErrors(s, ids) == [] && ParallelErrors(s, ids) == []
            && InputErrors(s) == []
  {
    assert forall n, m: StepId :: n in [m] <==> n == m;
  }

  // ----- edges -----

  /** The kinds of edge the compiler makes between the steps `a` and `b`. */
  datatype Slot = FromInput | Plain | TrueControl | FalseControl | BranchData | ToOutput

  function EdgeName(slot: Slot, a: StepId, b: StepId): EdgeId {
    match slot
    case FromInput => "e__input_" + b
    case Plain => "e_" + a + "_" + b
    case TrueControl => "e_" + a + "_" + b + "_control_true"
    case FalseControl => "e_" + a + "_" + b + "_control_false"
    case BranchData => "e_" + a + "_" + b + "_data"
    case ToOutput => a + "->_output"
  }

  /** An edge to be stored, and whether an edge already stored under its id stays. */
  datatype Put = Put(slot: Slot, a: StepId, b: StepId, key: string, keepOld: bool) {
    function Made(): Edge {
      Edge(
        EdgeName(slot, a, b),
        if slot == FromInput then INPUT_ID else a,
        if slot == ToOutput then OUTPUT_ID else b,
        if slot == TrueControl || slot == FalseControl then Control else Data,
        if slot == FalseControl then OnFalse else OnTrue,
        key)
    }
  }

  /** Steps named as loop bodies or parallel branches, by steps of any kind. */
  function BodyIds(steps: Steps): (r: set<StepId>)
    ensures forall n :: n in r <==> exists s :: s in steps && (n in s.loopBody || n in s.parallelBranches)
  {
    (set s, n | s in steps && n in s.loopBody :: n) + (set s, n | s in steps && n in s.parallelBranches :: n)
  }

  predicate IsEntry(steps: Steps, s: Step) {
    s.id !in BodyIds(steps) && s.dependsOn == []
  }

  predicate IsExitStep(steps: Steps, s: Step) {
    forall t | t in steps :: s.id !in t.dependsOn
  }

  function PutsTo(froms: seq<StepId>, to: StepId, keyed: bool): (r: seq<Put>)
    ensures forall p :: p in r <==> p.a in froms && p == Put(Plain, p.a, to, if keyed then p.a else "", false)
  {
    if froms == [] then []
    else
      assert forall d :: d in froms <==> d == froms[0] || d in froms[1..];
      [Put(Plain, froms[0], to, if keyed then froms[0] else "", false)] + PutsTo(froms[1..], to, keyed)
  }

  function PutsFrom(from: StepId, tos: seq<StepId>): (r: seq<Put>)
    ensures forall p :: p in r <==> p.b in tos && p == Put(Plain, from, p.b, "", false)
  {
    if tos == [] then []
    else
      assert forall b :: b in tos <==> b == tos[0] || b in tos[1..];
      [Put(Plain, from, tos[0], "", false)] + PutsFrom(from, tos[1..])
  }

  function BranchPuts(s: Step): seq<Put> {
    (if s.trueBranch == "" then []
     else [Put(TrueControl, s.id, s.trueBranch, "", false), Put(BranchData, s.id, s.trueBranch, "", false)])
    + (if s.falseBranch == "" then []
       else [Put(FalseControl, s.id, s.falseBranch, "", false), Put(BranchData, s.id, s.falseBranch, "", false)])
  }

  /** The edges made for one step, in the order the compiler makes them. */
  function StepPuts(steps: Steps, s: Step): seq<Put> {
    (if IsEntry(steps, s) then [Put(FromInput, INPUT_ID, s.id, "", false)] else [])
    + PutsTo(s.dependsOn, s.id, true)
    + (if s.kind == ConditionalStep then BranchPuts(s) else [])
    + (if s.kind == LoopStep && s.loopBody != [] then [Put(Plain, s.id, s.loopBody[0], "input", true)] else [])
    + (if s.kind == MergeStep then PutsTo(s.mergeFrom, s.id, false) else [])
    + (if s.kind == ParallelStep then PutsFrom(s.id, s.parallelBranches) else [])
  }

  function PutsOf(steps: Steps, todo: Steps): seq<Put> {
    FlatMap(todo, (s: Step) => StepPuts(steps, s))
  }

  lemma PutsOfHas(steps: Steps, todo: Steps)
    ensures forall p :: p in PutsOf(steps, todo) <==> exists s :: s in todo && p in StepPuts(steps, s)
  {
    var puts := (s: Step) => StepPuts(steps, s);
    FlatMapHas(todo, puts);
    assert forall s :: puts(s) == StepPuts(steps, s);
  }

  function OutputPuts(steps: Steps, todo: Steps): (r: seq<Put>)
    ensures forall p :: p in r <==>
                          exists s :: s in todo && IsExitStep(steps, s) && p == Put(ToOutput, s.id, OUTPUT_ID, "", false)
  {
    if todo == [] then []
    else
      assert forall s :: s in todo <==> s == todo[0] || s in todo[1..];
      (if IsExitStep(steps, todo[0]) then [Put(ToOutput, todo[0].id, OUTPUT_ID, "", false)] else [])
      + OutputPuts(steps, todo[1..])
  }

  function AllPuts(steps: Steps): seq<Put> {
    PutsOf(steps, steps) + OutputPuts(steps, steps)
  }

  /** Storing an edge in the Map: an edge under the same id is replaced where it stands. */
  function Store(edges: seq<Edge>, e: Edge, keepOld: bool): seq<Edge> {
    if edges == [] then [e]
    else if edges[0].id == e.id then (if keepOld then edges else [e] + edges[1..])
    else [edges[0]] + Store(edges[1..], e, keepOld)
  }

  function Stored(edges: seq<Edge>, puts: seq<Put>): seq<Edge>
    decreases puts
  {
    if puts == [] then edges else Stored(Store(edges, puts[0].Made(), puts[0].keepOld), puts[1..])
  }

  lemma {:induction false} StoredConcat(edges: seq<Edge>, p: seq<Put>, q: seq<Put>)
    ensures Stored(edges, p + q) == Stored(Stored(edges, p), q)
    decreases p
  {
    if p == [] {
      assert p + q == q;
    } else {
      assert (p + q)[0] == p[0] && (p + q)[1..] == p[1..] + q;
      StoredConcat(Store(edges, p[0].Made(), p[0].keepOld), p[1..], q);
    }
  }

  lemma PutsOfOneMore(steps: Steps, k: nat)
    requires k < |steps|
    ensures PutsOf(steps, steps[..k + 1]) == PutsOf(steps, steps[..k]) + StepPuts(steps, steps[k])
  {
    assert steps[..k + 1] == steps[..k] + [steps[k]];
    FlatMapSnoc(steps[..k], steps[k], (s: Step) => StepPuts(steps, s));
  }

  method PutAll(edges0: seq<Edge>, puts: seq<Put>) returns (edges: seq<Edge>)
    ensures edges == Stored(edges0, puts)
  {
    edges := edges0;
    for k := 0 to |puts|
      invariant Stored(edges0, puts) == Stored(edges, puts[k..])
    {
      assert puts[k..][0] == puts[k] && puts[k..][1..] == puts[k + 1..];
      edges := Store(edges, puts[k].Made(), puts[k].keepOld);
    }
  }

  method BuildEdges(steps: Steps) returns (edges: seq<Edge>)
    ensures edges == Stored([], AllPuts(steps))
  {
    edges := [];
    for k := 0 to |steps|
      invariant edges == Stored([], PutsOf(steps, steps[..k]))
    {
      PutsOfOneMore(steps, k);
      StoredConcat([], PutsOf(steps, steps[..k]), StepPuts(steps, steps[k]));
      edges := PutAll(edges, StepPuts(steps, steps[k]));
    }
    assert steps[..|steps|] == steps;
    StoredConcat([], PutsOf(steps, steps), OutputPuts(steps, steps));
    edges := PutAll(edges, OutputPuts(steps, steps));
  }

  // ----- nodes -----

  function KindOf(kind: StepKind): NodeKind {
    match kind
    case QueryStep => Query
    case TransformStep => Transform
    case LlmStep => Llm
    case HttpStep => Http
    case WriteStep => Write
    case ConditionalStep => Conditional
    case LoopStep => Loop
    case MergeStep => Merge
    case ParallelStep => Parallel
  }

  const NO_LOOP := LoopPayload(ForEach, "", "", 0, Collect)

  function StepNode(s: Step): Node {
    Node(
      KindOf(s.kind), FailPolicy, 0,
      LoopPayload(s.loopMode, "item", "", if s.maxIterations.Some? then s.maxIterations.value else 100, Collect),
      false)
  }

  /** Keys in the order they were first set. */
  function FirstSeen(ids: seq<NodeId>): (r: seq<NodeId>)
    ensures NoDup(r) && Elems(r) == Elems(ids)
    ensures NoDup(ids) ==> r == ids
  {
    if ids == [] then []
    else
      var init, last := ids[..|ids| - 1], ids[|ids| - 1];
      assert ids == init + [last];
      var r := FirstSeen(init);
      assert last in r <==> last in Elems(r);
      assert last in init <==> last in Elems(init);
      assert last in init ==> Elems(init) == Elems(ids);
      assert Elems(r + [last]) == Elems(r) + {last};
      if last in r then r else r + [last]
  }

  function NodesFor(steps: Steps): (r: map<NodeId, Node>)
    ensures r.Keys == {INPUT_ID, OUTPUT_ID} + Elems(Ids(steps))
  {
    if steps == [] then
      map[INPUT_ID := Node(Input, FailPolicy, 0, NO_LOOP, false), OUTPUT_ID := Node(Output, FailPolicy, 0, NO_LOOP, false)]
    else
      var init, last := steps[..|steps| - 1], steps[|steps| - 1];
      assert steps == init + [last];
      assert Ids(steps) == Ids(init) + [last.id];
      NodesFor(init)[last.id := StepNode(last)]
  }

  function HasOutgoingData(edges: seq<Edge>, n: NodeId): bool {
    exists e | e in edges :: e.from == n && e.kind.Data?
  }

  function NodesWithoutOutgoing(ids: seq<NodeId>, edges: seq<Edge>): seq<NodeId> {
    Filter(ids, n => !HasOutgoingData(edges, n))
  }

  method DetectExits(ids: seq<NodeId>, edges: seq<Edge>) returns (exits: seq<NodeId>)
    ensures exits == NodesWithoutOutgoing(ids, edges)
  {
    exits := [];
    for k := 0 to |ids|
      invariant exits + NodesWithoutOutgoing(ids[k..], edges) == NodesWithoutOutgoing(ids, edges)
    {
      assert ids[k..][0] == ids[k] && ids[k..][1..] == ids[k + 1..];
      if !HasOutgoingData(edges, ids[k]) {
        exits := exits + [ids[k]];
      }
    }
  }

  /** The graph compiled from valid steps. */
  function CompiledGraph(steps: Steps): Graph {
    var ids := FirstSeen([INPUT_ID, OUTPUT_ID] + Ids(steps));
    var edges := Stored([], AllPuts(steps));
    var exits := NodesWithoutOutgoing(ids, edges);
    Graph(ids, NodesFor(steps), edges, INPUT_ID, if exits != [] then exits else [OUTPUT_ID])
  }

  const EMPTY_GRAPH := Graph([], map[], [], INPUT_ID, [OUTPUT_ID])

  /** Compilation: the graph of the steps, or the empty graph with the reasons. */
  method Compile(steps: Steps) returns (g: Graph, errors: seq<IntentError>)
    ensures errors == [] <==> ValidIntent(steps)
    ensures g == if ValidIntent(steps) then CompiledGraph(steps) else EMPTY_GRAPH
  {
    errors := Validate(steps);
    if errors != [] {
      return EMPTY_GRAPH, errors;
    }
    var edges := BuildEdges(steps);
    var ids := FirstSeen([INPUT_ID, OUTPUT_ID] + Ids(steps));
    var exits := DetectExits(ids, edges);
    g := Graph(ids, NodesFor(steps), edges, INPUT_ID, if exits != [] then exits else [OUTPUT_ID]);
  }
}
