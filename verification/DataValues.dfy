/** The values of rows and expressions, and the values that flow along edges. */
module DataValues {

  /** A row or expression value.  Numbers are modelled by reals. */
  datatype Value =
    | Null | Bool(b: bool) | Num(n: real) | Str(s: string)
    | Arr(items: seq<Value>) | Obj(fields: map<string, Value>)

  type Row = map<string, Value>

  /** An absent column reads as null. */
  function Cell(row: Row, column: string): Value {
    if column in row then row[column] else Null
  }

  /** A value on an edge; column schemas are not modelled. */
  datatype DataValue =
    | Tabular(rows: seq<Row>) | Record(row: Row) | Scalar(value: Value)
    | Collection(items: seq<DataValue>) | Void

  /** A data value stored inside a row, as the plain object it is. */
  function AsValue(d: DataValue): Value {
    match d
    case Tabular(rows) => Obj(map["kind" := Str("tabular"), "data" := Arr(seq(|rows|, i requires 0 <= i < |rows| => Obj(rows[i])))])
    case Record(row) => Obj(map["kind" := Str("record"), "data" := Obj(row)])
    case Scalar(v) => Obj(map["kind" := Str("scalar"), "data" := v])
    case Collection(items) => Obj(map["kind" := Str("collection"), "data" := Arr(AsValues(items))])
    case Void => Obj(map["kind" := Str("void")])
  }

  function AsValues(items: seq<DataValue>): seq<Value> {
    if items == [] then [] else [AsValue(items[0])] + AsValues(items[1..])
  }
}
