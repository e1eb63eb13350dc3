/** Before a query runs, its filters that refer to upstream rows are given their values. */
module QueryExecutor {
  import opened Common
  import opened DataValues
  import opened CrossDbDecomposer

  datatype ResolveError = NoMatch(ref: string, node: string) | Ambiguous(ref: string, node: string, found: nat)

  type Outputs = map<string, seq<Row>>

  /** The non-null values of one column. */
  function ColumnValues(rows: seq<Row>, column: string): seq<Value> {
    if rows == [] then []
    else
      var first := if column in rows[0] && rows[0][column] != Null then [rows[0][column]] else [];
      first + ColumnValues(rows[1..], column)
  }

  /** A reference to a node that has left no rows stays as it is. */
  function ResolveFilter(f: Condition, outputs: Outputs): Result<Condition, ResolveError> {
    var (node, column) := ParseRef(f.valueRef);
    if f.valueRef == "" || node !in outputs then Ok(f)
    else
      var values := ColumnValues(outputs[node], column);
      if |values| == 0 then Err(NoMatch(f.valueRef, node))
      else if |values| > 1 then Err(Ambiguous(f.valueRef, node, |values|))
      else Ok(f.(operator := "IN", value := Arr(values), valueRef := ""))
  }

  ghost predicate ResolvedAll(before: seq<Condition>, after: seq<Condition>, outputs: Outputs) {
    |before| == |after| && forall i :: 0 <= i < |before| ==> ResolveFilter(before[i], outputs) == Ok(after[i])
  }

  /** The filters are rewritten in place; the first that cannot be resolved throws, those
      before it being rewritten already and those after it untouched. */
  method ResolveValueRefs(filters: array<Condition>, outputs: Outputs) returns (failure: Option<ResolveError>)
    modifies filters
    ensures failure.None? <==> forall i :: 0 <= i < filters.Length ==> ResolveFilter(old(filters[i]), outputs).Ok?
    ensures failure.None? ==> ResolvedAll(old(filters[..]), filters[..], outputs)
    ensures failure.Some? ==>
              exists k :: 0 <= k < filters.Length
                && ResolveFilter(old(filters[k]), outputs) == Err(failure.value)
                && ResolvedAll(old(filters[..])[..k], filters[..k], outputs)
                && filters[k..] == old(filters[..])[k..]
  {
    for i := 0 to filters.Length
      invariant ResolvedAll(old(filters[..])[..i], filters[..i], outputs)
      invariant forall k :: i <= k < filters.Length ==> filters[k] == old(filters[k])
    {
      ghost var before := filters[..];
      var f := filters[i];
      if f.valueRef != "" {
        var (node, column) := ParseRef(f.valueRef);
        if node in outputs {
          var values := ColumnValues(outputs[node], column);
          if |values| == 0 {
            assert filters[i..] == old(filters[..])[i..];
            return Some(NoMatch(f.valueRef, node));
          }
          if |values| > 1 {
            assert filters[i..] == old(filters[..])[i..];
            return Some(Ambiguous(f.valueRef, node, |values|));
          }
          filters[i] := f.(operator := "IN", value := Arr(values), valueRef := "");
        }
      }
      assert ResolveFilter(f, outputs) == Ok(filters[i]);
      assert filters[..i] == before[..i];
      assert old(filters[..])[..i + 1] == old(filters[..])[..i] + [f];
    }
    assert old(filters[..])[..filters.Length] == old(filters[..]) && filters[..filters.Length] == filters[..];
    assert forall i :: 0 <= i < filters.Length ==> old(filters[i]) == old(filters[..])[i];
    return None;
  }
}
