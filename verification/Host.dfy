/** The world outside the scheduler: arbitrary answers to everything it consults. */
module Host {
  import opened DataValues
  import opened PipelineGraph

  /** The inputs of a node as an object with its keys in insertion order. */
  type Inputs = seq<(string, DataValue)>

  datatype Answer<+T> = Returns(value: T) | Throws(message: string)

  /** Answers to everything the scheduler consults, by the number of the consultation:
      the clock, node definitions and the query executor (with the inputs they are given),
      the race against a node's timeout, and expression evaluation. */
  datatype World = World(
    clock: nat -> int,
    execute: (nat, Inputs) -> Answer<DataValue>,
    timesOut: nat -> bool,
    evaluate: nat -> Answer<Value>,
    iterable: nat -> Answer<DataValue>,
    singleInputPort: NodeKind -> bool)
}
