/** What one node is given and what it may come to, kind by kind. */
module NodeResults {
  import opened Common
  import opened DataValues
  import opened PipelineGraph
  import opened LoopHelpers
  import opened Host

  // ----- node states -----

  /** A node not run yet, one a returned loop has marked, and one skipped without a try. */
  const IDLE := NodeState(Pending, None, 0)
  const CONSUMED := NodeState(Completed, None, 0)
  const PASSED_OVER := NodeState(Skipped, None, 0)

  function SetStatus(states: NodeStates, n: NodeId, status: Status): (r: NodeStates) {
    if n in states then states[n := states[n].(status := status)] else states
  }

  function Complete(states: NodeStates, n: NodeId, output: Option<DataValue>): (r: NodeStates) {
    if n in states then states[n := states[n].(status := Completed, output := output)] else states
  }

  /** The states differ at `n` alone, which stays among them. */
  ghost predicate OnlyChanged(n: NodeId, s: NodeStates, t: NodeStates) {
    n in t && t == s[n := t[n]]
  }

  // ----- inputs -----

  function PutInput(inputs: Inputs, key: string, v: DataValue): Inputs {
    if inputs == [] then [(key, v)]
    else if inputs[0].0 == key then [(key, v)] + inputs[1..]
    else [inputs[0]] + PutInput(inputs[1..], key, v)
  }

  function GetInput(inputs: Inputs, key: string): Option<DataValue> {
    if inputs == [] then None
    else if inputs[0].0 == key then Some(inputs[0].1)
    else GetInput(inputs[1..], key)
  }

  function InputsOf(incoming: seq<Edge>, states: NodeStates): Inputs {
    if incoming == [] then []
    else
      var e, before := incoming[|incoming| - 1], InputsOf(incoming[..|incoming| - 1], states);
      if e.from in states && states[e.from].output.Some?
      then PutInput(before, if e.inputKey == "" then "input" else e.inputKey, states[e.from].output.value)
      else before
  }

  function NodeInputs(n: NodeId, g: Graph, states: NodeStates): Inputs {
    InputsOf(IncomingData(g, n), states)
  }

  function InputValues(inputs: Inputs): seq<DataValue> {
    seq(|inputs|, i requires 0 <= i < |inputs| => inputs[i].1)
  }

  /** Inputs depend on the outputs held by the states alone. */
  lemma {:induction false} SameOutputsSameInputs(incoming: seq<Edge>, s: NodeStates, t: NodeStates)
    requires s.Keys == t.Keys && forall m :: m in s ==> t[m].output == s[m].output
    ensures InputsOf(incoming, s) == InputsOf(incoming, t)
  {
    if incoming != [] {
      SameOutputsSameInputs(incoming[..|incoming| - 1], s, t);
    }
  }

  function LoopInput(inputs: Inputs): DataValue {
    match GetInput(inputs, "input")
    case Some(v) => v
    case None => if inputs == [] then Scalar(Null) else inputs[0].1
  }

  /** What each iteration of a while loop works on. */
  function WhileInput(inputs: Inputs): DataValue {
    match GetInput(inputs, "input")
    case Some(v) => v
    case None => Void
  }

  /** What a node whose policy is to skip passes on when it fails. */
  function PassedOn(w: World, node: Node, inputs: Inputs): DataValue {
    if w.singleInputPort(node.kind)
    then (if GetInput(inputs, "input").Some? then GetInput(inputs, "input").value else Void)
    else Collection(InputValues(inputs))
  }

  /** The outputs of the completed sources, in edge order. */
  function MergedOutputs(incoming: seq<Edge>, states: NodeStates): seq<DataValue> {
    if incoming == [] then []
    else
      var from, before := incoming[|incoming| - 1].from, MergedOutputs(incoming[..|incoming| - 1], states);
      if from in states && states[from].status == Completed && states[from].output.Some?
      then before + [states[from].output.value] else before
  }

  /** Neither skipped nor completed with an output. */
  predicate Unsettled(n: NodeId, states: NodeStates) {
    n in states && states[n].status != Skipped && !(states[n].status == Completed && states[n].output.Some?)
  }

  /** A merge that waits for all has a source still unsettled. */
  ghost predicate StillWaiting(g: Graph, n: NodeId, states: NodeStates)
    requires n in g.nodes
  {
    g.nodes[n].waitForAll && exists e :: e in IncomingData(g, n) && Unsettled(e.from, states)
  }

  /** What the definition of a merge node is called with. */
  function MergeInput(outputs: seq<DataValue>): Inputs {
    [("input", Collection(outputs))]
  }

  // ----- results -----

  /** Consulted from `t` on with these inputs, the definition fails until `u` and returns
      then, within its retries and in time. */
  ghost predicate SucceedsAt(w: World, node: Node, inputs: Inputs, t: nat, u: nat) {
    && t <= u && u - t <= node.maxRetries
    && w.execute(u, inputs).Returns?
    && (forall v :: t <= v < u ==> w.execute(v, inputs).Throws?)
    && !w.timesOut(u + 1)
  }

  ghost predicate Succeeds(w: World, node: Node, inputs: Inputs, t: nat) {
    exists u :: SucceedsAt(w, node, inputs, t, u)
  }

  /** A node run by its definition completes with the first value returned for its inputs;
      failing, it is skipped if its policy says so, and passes its inputs on. */
  ghost predicate StandardOutcome(w: World, g: Graph, n: NodeId, states: NodeStates, t: nat, st: NodeState)
    requires n in g.nodes
  {
    var node, inputs := g.nodes[n], NodeInputs(n, g, states);
    if Succeeds(w, node, inputs, t)
    then exists u :: t <= u && SucceedsAt(w, node, inputs, t, u) &&
                     st == NodeState(Completed, Some(w.execute(u, inputs).value), u - t)
    else node.policy == SkipPolicy && st.status == Skipped && st.output == Some(PassedOn(w, node, inputs))
  }

  /** A query completes with what the executor returns the second time it is asked. */
  ghost predicate QueryOutcome(w: World, t: nat, st: NodeState) {
    && w.execute(t, []).Returns? && w.execute(t + 1, []).Returns? && !w.timesOut(t + 2)
    && st == NodeState(Completed, Some(w.execute(t + 1, []).value), 0)
  }

  /** A merge completes with its only completed source's output, or with what its
      definition makes of several. */
  ghost predicate MergeOutcome(w: World, g: Graph, n: NodeId, states: NodeStates, t: nat, st: NodeState)
    requires n in g.nodes
  {
    var outputs := MergedOutputs(IncomingData(g, n), states);
    && !StillWaiting(g, n, states) && outputs != []
    && (if |outputs| == 1 then st == NodeState(Completed, Some(SafeItem(outputs[0])), 0)
        else
          var answer := w.execute(t, MergeInput(outputs));
          answer.Returns? && st == NodeState(Completed, Some(answer.value), 0))
  }

  /** A conditional whose predicate is a boolean completes with its own input. */
  ghost predicate ConditionalOutcome(w: World, g: Graph, n: NodeId, states: NodeStates, t: nat, st: NodeState) {
    && w.evaluate(t).Returns? && w.evaluate(t).value.Bool?
    && st == NodeState(Completed, GetInput(NodeInputs(n, g, states), "input"), 0)
  }

  /** What a node that is neither a conditional nor a loop comes to. */
  ghost predicate PlainOutcome(w: World, g: Graph, n: NodeId, states: NodeStates, t: nat, st: NodeState)
    requires n in g.nodes
  {
    if g.nodes[n].kind == Merge then MergeOutcome(w, g, n, states, t, st)
    else if g.nodes[n].kind == Query then QueryOutcome(w, t, st)
    else StandardOutcome(w, g, n, states, t, st)
  }

  /** When such a node throws. */
  ghost predicate PlainThrows(w: World, g: Graph, n: NodeId, states: NodeStates, t: nat)
    requires n in g.nodes
  {
    var outputs := MergedOutputs(IncomingData(g, n), states);
    if g.nodes[n].kind == Merge
    then StillWaiting(g, n, states) || outputs == [] || (|outputs| > 1 && w.execute(t, MergeInput(outputs)).Throws?)
    else if g.nodes[n].kind == Query
    then w.execute(t, []).Throws? || w.execute(t + 1, []).Throws? || w.timesOut(t + 2)
    else g.nodes[n].policy != SkipPolicy && !Succeeds(w, g.nodes[n], NodeInputs(n, g, states), t)
  }

  lemma StandardDecided(w: World, g: Graph, n: NodeId, states: NodeStates, t: nat)
    requires n in g.nodes
    ensures g.nodes[n].policy != SkipPolicy && !Succeeds(w, g.nodes[n], NodeInputs(n, g, states), t) <==>
            forall st :: !StandardOutcome(w, g, n, states, t, st)
  {
    var node, inputs := g.nodes[n], NodeInputs(n, g, states);
    if Succeeds(w, node, inputs, t) {
      var u: nat :| SucceedsAt(w, node, inputs, t, u);
      assert StandardOutcome(w, g, n, states, t, NodeState(Completed, Some(w.execute(u, inputs).value), u - t));
    } else if node.policy == SkipPolicy {
      assert StandardOutcome(w, g, n, states, t, NodeState(Skipped, Some(PassedOn(w, node, inputs)), 0));
    }
  }

  lemma MergeDecided(w: World, g: Graph, n: NodeId, states: NodeStates, t: nat)
    requires n in g.nodes && g.nodes[n].kind == Merge
    ensures PlainThrows(w, g, n, states, t) <==> forall st :: !MergeOutcome(w, g, n, states, t, st)
  {
    var outputs := MergedOutputs(IncomingData(g, n), states);
    if !PlainThrows(w, g, n, states, t) {
      var value := if |outputs| == 1 then SafeItem(outputs[0]) else w.execute(t, MergeInput(outputs)).value;
      assert MergeOutcome(w, g, n, states, t, NodeState(Completed, Some(value), 0));
    }
  }

  /** A node throws exactly when it can come to nothing. */
  lemma ThrowsJustWithoutOutcome(w: World, g: Graph, n: NodeId, states: NodeStates, t: nat)
    requires n in g.nodes
    ensures PlainThrows(w, g, n, states, t) <==> forall st :: !PlainOutcome(w, g, n, states, t, st)
  {
    if g.nodes[n].kind == Merge {
      MergeDecided(w, g, n, states, t);
      assert forall st :: PlainOutcome(w, g, n, states, t, st) == MergeOutcome(w, g, n, states, t, st);
    } else if g.nodes[n].kind == Query {
      if !PlainThrows(w, g, n, states, t) {
        assert PlainOutcome(w, g, n, states, t, NodeState(Completed, Some(w.execute(t + 1, []).value), 0));
      }
    } else {
      StandardDecided(w, g, n, states, t);
      assert forall st :: PlainOutcome(w, g, n, states, t, st) == StandardOutcome(w, g, n, states, t, st);
    }
  }

  /** Whether a control edge fires for the value of its conditional's predicate. */
  predicate Fires(condition: Condition, result: bool) {
    match condition
    case Always => true
    case OnTrue => result
    case OnFalse => !result
    case OnError => false
  }
}
