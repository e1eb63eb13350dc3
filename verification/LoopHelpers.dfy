/** Loop execution helpers: what an iteration is fed, and how its results accumulate. */
module LoopHelpers {
  import opened Common
  import opened DataValues
  import opened PipelineGraph

  datatype Status = Pending | Running | Completed | Failed | Skipped

  predicate Settled(s: Status) {
    s == Completed || s == Skipped
  }

  datatype NodeState = NodeState(status: Status, output: Option<DataValue>, retryCount: nat)

  type NodeStates = map<NodeId, NodeState>

  /** What the loop node's data edge carries during the iteration over `item`. */
  function LoopOutput(item: DataValue): DataValue {
    match item
    case Tabular(_) => item
    case Record(_) => item
    case Scalar(v) => Record(map["value" := v])
    case Collection(items) => Record(map["items" := Arr(AsValues(items))])
    case Void => Record(map[])
  }

  function ToIterable(v: DataValue): seq<DataValue> {
    match v
    case Void => []
    case Tabular(rows) => seq(|rows|, i requires 0 <= i < |rows| => Record(rows[i]))
    case Collection(items) => items
    case _ => [v]
  }

  function InitAccumulator(a: Accumulator): DataValue {
    match a
    case Collect => Collection([])
    case MergeRows => Record(map[])
    case Reduce(initial) => Scalar(initial)
  }

  /** Void results are collected as empty tables. */
  function SafeItem(item: DataValue): DataValue {
    if item.Void? then Tabular([]) else item
  }

  function FirstRow(v: DataValue): Row {
    match v
    case Record(row) => row
    case Tabular(rows) => if rows == [] then map[] else rows[0]
    case _ => map[]
  }

  /** One accumulation step; `reduced` is what the reducer expression evaluates to. */
  function UpdateAccumulator(a: Accumulator, acc: DataValue, item: DataValue, reduced: Value): DataValue {
    match a
    case Collect => Collection((if acc.Collection? then acc.items else []) + [SafeItem(item)])
    case MergeRows => Record(FirstRow(acc) + FirstRow(item))
    case Reduce(_) => Scalar(reduced)
  }

  /** A body result and, for a reducer, what the reducer expression gave for it. */
  type Turn = (DataValue, Value)

  /** The accumulator after the given turns. */
  function Accumulated(a: Accumulator, turns: seq<Turn>): DataValue {
    if turns == [] then InitAccumulator(a)
    else
      var last := turns[|turns| - 1];
      UpdateAccumulator(a, Accumulated(a, turns[..|turns| - 1]), last.0, last.1)
  }

  /** Collecting keeps every result, in order. */
  lemma {:induction false} CollectKeepsAll(turns: seq<Turn>)
    ensures Accumulated(Collect, turns) ==
            Collection(seq(|turns|, i requires 0 <= i < |turns| => SafeItem(turns[i].0)))
  {
    if turns == [] {
    } else {
      var init := turns[..|turns| - 1];
      CollectKeepsAll(init);
    }
  }

  lemma {:induction false} MergeStaysRecord(turns: seq<Turn>)
    ensures Accumulated(MergeRows, turns).Record?
  {
  }

  /** Merging keeps, for each field, the value of the last result that has the field. */
  lemma {:induction false} MergeKeepsLast(turns: seq<Turn>, f: string, i: nat)
    requires i < |turns| && f in FirstRow(turns[i].0)
    requires forall j :: i < j < |turns| ==> f !in FirstRow(turns[j].0)
    ensures Accumulated(MergeRows, turns).Record?
    ensures f in Accumulated(MergeRows, turns).row
    ensures Accumulated(MergeRows, turns).row[f] == FirstRow(turns[i].0)[f]
  {
    var init := turns[..|turns| - 1];
    MergeStaysRecord(init);
    if i < |init| {
      MergeKeepsLast(init, f, i);
    }
  }

  /** Merging invents no field. */
  lemma {:induction false} MergeInventsNothing(turns: seq<Turn>, f: string)
    requires forall j :: 0 <= j < |turns| ==> f !in FirstRow(turns[j].0)
    ensures Accumulated(MergeRows, turns).Record?
    ensures f !in Accumulated(MergeRows, turns).row
  {
    if turns != [] {
      MergeInventsNothing(turns[..|turns| - 1], f);
    }
  }

  /** A reducer's accumulator is what its expression last gave, or its initial value. */
  lemma ReduceKeepsLast(turns: seq<Turn>, initial: Value)
    ensures Accumulated(Reduce(initial), turns)
            == Scalar(if turns == [] then initial else turns[|turns| - 1].1)
  {
  }

  function HasOutput(states: NodeStates, n: NodeId): bool {
    n in states && states[n].status == Completed && states[n].output.Some?
  }

  function IsExit(body: seq<NodeId>, g: Graph, n: NodeId): bool {
    forall e | e in g.edges :: e.from == n && e.kind.Data? ==> e.to !in body
  }

  function FirstOutput(candidates: seq<NodeId>, states: NodeStates): DataValue {
    if candidates == [] then Void
    else if HasOutput(states, candidates[0]) then states[candidates[0]].output.value
    else FirstOutput(candidates[1..], states)
  }

  /** The result of one iteration: the output of the first completed exit node of the
      body, of the first completed body node when there is no exit, void if none completed. */
  function SubgraphOutput(body: seq<NodeId>, g: Graph, states: NodeStates): DataValue {
    var exits := Filter(body, n => IsExit(body, g, n));
    if exits == [] then FirstOutput(body, states) else FirstOutput(exits, states)
  }
}
