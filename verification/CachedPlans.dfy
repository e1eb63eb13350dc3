/** What is cached of a plan's graph: a clone whose write nodes have lost the entered values
    and whose query nodes have lost the injected columns. */
module CachedPlans {
  import opened Common
  import opened SemanticCache

  predicate Truthy(v: Js) {
    match v
    case Undefined => false
    case Null => false
    case Bool(b) => b
    case Num(n) => n != 0.0
    case Str(s) => s != ""
    case _ => true
  }

  /** Reading a property; nothing where that throws. */
  function Property(v: Js, name: string): Option<Js> {
    match v
    case Undefined => None
    case Null => None
    case Obj(fields) => Some(if name in fields then fields[name] else Undefined)
    case _ => Some(Undefined)
  }

  function With(v: Js, name: string, x: Js): Js
    requires v.Obj?
  {
    Obj(v.fields[name := x])
  }

  function StrippedPayload(payload: Js): Js
    requires payload.Obj?
  {
    With(With(payload, "staticValues", Obj(map[])), "columnAliases", Undefined)
  }

  function StripWrite(node: Js): Option<Js>
    requires node.Obj?
  {
    var payload := Property(node, "payload").value;
    if !payload.Obj? then None
    else Some(With(node, "payload", StrippedPayload(payload)))
  }

  predicate IsInjected(column: Js) {
    Property(column, "_autoInjected").Some? && Truthy(Property(column, "_autoInjected").value)
  }

  function KeptColumns(columns: seq<Js>): seq<Js> {
    Filter(columns, (c: Js) => !IsInjected(c))
  }

  function StripQuery(node: Js): Option<Js>
    requires node.Obj?
  {
    var payload := Property(node, "payload").value;
    var intent := Property(payload, "intent");
    if intent == None then None
    else
      var columns := Property(intent.value, "columns");
      if columns == None || !Truthy(columns.value) then Some(node)
      else if !columns.value.Arr? || exists c <- columns.value.items :: Property(c, "_autoInjected") == None then None
      else
        assert intent.value.Obj? && payload.Obj?;
        Some(With(node, "payload",
               With(payload, "intent", With(intent.value, "columns", Arr(KeptColumns(columns.value.items))))))
  }

  /** What becomes of a node; nothing where stripping throws. */
  function StripNode(node: Js): Option<Js> {
    var kind := Property(node, "kind");
    if kind == None then None
    else if kind.value == Str("write") then StripWrite(node)
    else if kind.value == Str("query") then StripQuery(node)
    else Some(node)
  }

  function StripNodes(entries: seq<Entry>): Option<seq<Entry>> {
    if exists i :: 0 <= i < |entries| && StripNode(entries[i].value) == None then None
    else Some(seq(|entries|, i requires 0 <= i < |entries| => Entry(entries[i].key, StripNode(entries[i].value).value)))
  }

  function Stripped(graph: Js): Option<Js> {
    var clone := Clone(graph);
    if clone == None || !clone.value.Obj? || "nodes" !in clone.value.fields || !clone.value.fields["nodes"].MapOf? then None
    else
      var nodes := StripNodes(clone.value.fields["nodes"].entries);
      if nodes == None then None else Some(With(clone.value, "nodes", MapOf(nodes.value)))
  }

  /** The nodes of the clone are edited one after the other. */
  method StripExecutionValues(graph: Js) returns (r: Option<Js>)
    ensures r == Stripped(graph)
  {
    var clone := Clone(graph);
    if clone == None || !clone.value.Obj? || "nodes" !in clone.value.fields || !clone.value.fields["nodes"].MapOf? {
      return None;
    }
    var before := clone.value.fields["nodes"].entries;
    var entries := before;
    for i := 0 to |before|
      invariant |entries| == |before|
      invariant forall k :: 0 <= k < i ==>
                  StripNode(before[k].value) == Some(entries[k].value) && entries[k].key == before[k].key
      invariant forall k :: i <= k < |before| ==> entries[k] == before[k]
    {
      var node := StripNode(entries[i].value);
      if node == None {
        return None;
      }
      entries := entries[i := Entry(entries[i].key, node.value)];
    }
    assert entries == StripNodes(before).value;
    return Some(With(clone.value, "nodes", MapOf(entries)));
  }

  // ----- stripping twice -----

  lemma {:induction false} PrunedIsClean(v: Js)
    requires Genuine(v) && Untagged(v)
    ensures Defined(Pruned(v)) && Genuine(Pruned(v)) && Untagged(Pruned(v))
  {
    match v
    case Arr(items) =>
      forall i | 0 <= i < |items|
        ensures Defined(Pruned(items[i])) && Genuine(Pruned(items[i])) && Untagged(Pruned(items[i]))
      {
        assert items[i] in items;
        PrunedIsClean(items[i]);
      }
    case Obj(fields) =>
      forall k | k in fields
        ensures Defined(Pruned(fields[k])) && Genuine(Pruned(fields[k])) && Untagged(Pruned(fields[k]))
      {
        PrunedIsClean(fields[k]);
      }
      PrunedTag(fields);
    case MapOf(entries) =>
      forall i | 0 <= i < |entries|
        ensures Defined(Pruned(entries[i].value)) && Genuine(Pruned(entries[i].value)) && Untagged(Pruned(entries[i].value))
      {
        PrunedIsClean(entries[i].value);
      }
    case _ =>
  }

  lemma PrunedTag(fields: map<string, Js>)
    ensures IsTagged(Pruned(Obj(fields)).fields) ==> IsTagged(fields)
  {
    if "__type" in Pruned(Obj(fields)).fields {
      var v := fields["__type"];
      assert Pruned(v).Str? ==> v == Pruned(v);
    }
  }

  ghost predicate Clean(v: Js) {
    Defined(v) && Genuine(v) && Untagged(v)
  }

  /** A stripped node is still free of tags, and pruning and stripping it again changes
      nothing: what cloning drops is put back. */
  ghost predicate Settled(node: Js) {
    Genuine(node) && Untagged(node) && StripNode(Pruned(node)) == Some(node)
  }

  lemma PropertyIsClean(v: Js, name: string)
    requires Clean(v) && Property(v, name).Some?
    ensures Genuine(Property(v, name).value) && Untagged(Property(v, name).value)
    ensures Property(v, name).value != Undefined ==> Clean(Property(v, name).value)
  {
  }

  ghost predicate Sound(v: Js) {
    Genuine(v) && Untagged(v)
  }

  lemma WithSound(v: Js, name: string, x: Js)
    requires Sound(v) && Sound(x) && v.Obj? && name != "__type"
    ensures Sound(With(v, name, x))
  {
  }

  lemma PrunedPayload(payload: Js)
    requires Defined(payload) && payload.Obj?
    ensures Pruned(StrippedPayload(payload)) == Obj(payload.fields["staticValues" := Obj(map[])] - {"columnAliases"})
  {
    var stripped := StrippedPayload(payload).fields;
    var expected := payload.fields["staticValues" := Obj(map[])] - {"columnAliases"};
    forall k | k in expected
      ensures stripped[k] == expected[k] && Pruned(expected[k]) == expected[k] && expected[k] != Undefined
    {
      if k != "staticValues" {
        DefinedIsPruned(payload.fields[k]);
      }
    }
    PrunedFieldsAre(stripped, expected);
  }

  lemma PrunedFieldsAre(fields: map<string, Js>, expected: map<string, Js>)
    requires forall k :: k in expected <==> k in fields && fields[k] != Undefined
    requires forall k <- expected :: Pruned(fields[k]) == expected[k]
    ensures Pruned(Obj(fields)) == Obj(expected)
  {
    assert Pruned(Obj(fields)).fields == expected;
  }

  lemma StrippedPayloadSound(payload: Js)
    requires Sound(payload) && payload.Obj?
    ensures Sound(StrippedPayload(payload))
  {
    assert Sound(Obj(map[])) && Sound(Undefined);
    WithSound(payload, "staticValues", Obj(map[]));
    WithSound(With(payload, "staticValues", Obj(map[])), "columnAliases", Undefined);
  }

  lemma StrippingPutsBack(payload: Js, pruned: Js)
    requires payload.Obj? && pruned == Obj(payload.fields["staticValues" := Obj(map[])] - {"columnAliases"})
    ensures StrippedPayload(pruned) == StrippedPayload(payload)
  {
  }

  lemma WriteSettles(node: Js)
    requires Clean(node) && node.Obj? && Property(node, "kind") == Some(Str("write")) && StripWrite(node).Some?
    ensures Settled(StripWrite(node).value)
  {
    var payload := Property(node, "payload").value;
    PropertyIsClean(node, "payload");
    StrippedPayloadSound(payload);
    var stripped := StrippedPayload(payload);
    WithSound(node, "payload", stripped);
    PrunedPayload(payload);
    PrunedWith(node, "payload", stripped);
    StrippingPutsBack(payload, Pruned(stripped));
    WriteAgain(node, Pruned(stripped), stripped);
  }

  lemma WriteAgain(node: Js, pruned: Js, stripped: Js)
    requires node.Obj? && Property(node, "kind") == Some(Str("write"))
    requires pruned.Obj? && StrippedPayload(pruned) == stripped
    ensures StripNode(With(node, "payload", pruned)) == Some(With(node, "payload", stripped))
  {
    var again := With(node, "payload", pruned);
    assert Property(again, "kind") == Some(Str("write")) && Property(again, "payload") == Some(pruned);
    assert With(again, "payload", stripped) == With(node, "payload", stripped);
  }

  /** Pruning an object of which only one property is not defined throughout. */
  lemma PrunedWith(v: Js, name: string, x: Js)
    requires Defined(v) && v.Obj? && x != Undefined
    ensures Pruned(With(v, name, x)) == With(v, name, Pruned(x))
  {
    forall k | k in v.fields
      ensures Pruned(v.fields[k]) == v.fields[k] && v.fields[k] != Undefined
    {
      DefinedIsPruned(v.fields[k]);
    }
    assert Pruned(With(v, name, x)).fields == With(v, name, Pruned(x)).fields;
  }

  lemma {:induction false} KeptAreKept(columns: seq<Js>)
    ensures KeptColumns(KeptColumns(columns)) == KeptColumns(columns)
  {
    if columns != [] {
      KeptAreKept(columns[1..]);
      if !IsInjected(columns[0]) {
        assert ([columns[0]] + KeptColumns(columns[1..]))[1..] == KeptColumns(columns[1..]);
      }
    }
  }

  lemma WithClean(v: Js, name: string, x: Js)
    requires Clean(v) && Clean(x) && v.Obj? && name != "__type"
    ensures Clean(With(v, name, x))
  {
  }

  function WithColumns(node: Js, payload: Js, intent: Js, columns: seq<Js>): Js
    requires node.Obj? && payload.Obj? && intent.Obj?
  {
    With(node, "payload", With(payload, "intent", With(intent, "columns", Arr(columns))))
  }

  lemma QueryAgain(node: Js, payload: Js, intent: Js, kept: seq<Js>)
    requires node.Obj? && payload.Obj? && intent.Obj? && Property(node, "kind") == Some(Str("query"))
    requires KeptColumns(kept) == kept && forall c <- kept :: Property(c, "_autoInjected").Some?
    ensures StripNode(WithColumns(node, payload, intent, kept)) == Some(WithColumns(node, payload, intent, kept))
  {
    var intent1 := With(intent, "columns", Arr(kept));
    var payload1 := With(payload, "intent", intent1);
    var result := With(node, "payload", payload1);
    assert Property(result, "kind") == Some(Str("query")) && Property(result, "payload") == Some(payload1);
    assert Property(payload1, "intent") == Some(intent1) && Property(intent1, "columns") == Some(Arr(kept));
    assert With(intent1, "columns", Arr(kept)) == intent1;
    assert With(payload1, "intent", intent1) == payload1;
    assert With(result, "payload", payload1) == result;
  }

  lemma WithColumnsClean(node: Js, payload: Js, intent: Js, columns: seq<Js>)
    requires Clean(node) && Clean(payload) && Clean(intent) && Clean(Arr(columns))
    requires node.Obj? && payload.Obj? && intent.Obj?
    ensures Clean(WithColumns(node, payload, intent, columns))
  {
    WithClean(intent, "columns", Arr(columns));
    WithClean(payload, "intent", With(intent, "columns", Arr(columns)));
    WithClean(node, "payload", With(payload, "intent", With(intent, "columns", Arr(columns))));
  }

  lemma KeptColumnsClean(columns: seq<Js>)
    requires Clean(Arr(columns))
    ensures Clean(Arr(KeptColumns(columns)))
  {
  }

  lemma QuerySettles(node: Js)
    requires Clean(node) && node.Obj? && Property(node, "kind") == Some(Str("query")) && StripQuery(node).Some?
    ensures Settled(StripQuery(node).value)
  {
    var payload := Property(node, "payload").value;
    PropertyIsClean(node, "payload");
    var intent := Property(payload, "intent").value;
    PropertyIsClean(payload, "intent");
    var columns := Property(intent, "columns");
    if columns == None || !Truthy(columns.value) {
      DefinedIsPruned(node);
    } else {
      PropertyIsClean(intent, "columns");
      var kept := KeptColumns(columns.value.items);
      KeptColumnsClean(columns.value.items);
      KeptAreKept(columns.value.items);
      WithColumnsClean(node, payload, intent, kept);
      DefinedIsPruned(WithColumns(node, payload, intent, kept));
      QueryAgain(node, payload, intent, kept);
    }
  }

  lemma NodeSettles(node: Js)
    requires Clean(node) && StripNode(node).Some?
    ensures Settled(StripNode(node).value)
  {
    if Property(node, "kind") == Some(Str("write")) {
      WriteSettles(node);
    } else if Property(node, "kind") == Some(Str("query")) {
      QuerySettles(node);
    } else {
      DefinedIsPruned(node);
    }
  }

  /** The entries of the node map after stripping. */
  ghost predicate SettledNodes(entries: seq<Entry>) {
    && (forall i :: 0 <= i < |entries| ==> entries[i].key.Str? && entries[i].value != Undefined && Settled(entries[i].value))
    && (forall i, j :: 0 <= i < j < |entries| ==> entries[i].key != entries[j].key)
  }

  lemma NodesSettle(entries: seq<Entry>)
    requires Clean(MapOf(entries)) && StripNodes(entries).Some?
    ensures SettledNodes(StripNodes(entries).value)
  {
    forall i | 0 <= i < |entries|
      ensures StripNode(entries[i].value).Some? && StripNode(entries[i].value).value != Undefined
      ensures Settled(StripNode(entries[i].value).value)
    {
      NodeSettles(entries[i].value);
    }
  }

  function PrunedEntries(entries: seq<Entry>): seq<Entry> {
    seq(|entries|, i requires 0 <= i < |entries| => Entry(entries[i].key, Pruned(entries[i].value)))
  }

  lemma SettledNodesStayPut(entries: seq<Entry>)
    requires SettledNodes(entries)
    ensures StripNodes(PrunedEntries(entries)) == Some(entries)
    ensures Sound(MapOf(entries)) && Pruned(MapOf(entries)) == MapOf(PrunedEntries(entries))
  {
    var pruned := PrunedEntries(entries);
    assert forall i :: 0 <= i < |entries| ==> StripNode(pruned[i].value) == Some(entries[i].value);
    assert StripNodes(pruned).value == entries;
  }

  /** Stripping is idempotent, though every round goes through a clone that drops the
      undefined aliases the round before has left. */
  lemma StrippingIsIdempotent(graph: Js)
    requires Genuine(graph) && Untagged(graph) && Stripped(graph).Some?
    ensures Stripped(Stripped(graph).value) == Stripped(graph)
  {
    CloningPrunes(graph);
    PrunedIsClean(graph);
    var clone := Pruned(graph);
    PropertyIsClean(clone, "nodes");
    var entries := clone.fields["nodes"].entries;
    NodesSettle(entries);
    var settled := StripNodes(entries).value;
    SettledNodesStayPut(settled);
    var once := With(clone, "nodes", MapOf(settled));
    WithSound(clone, "nodes", MapOf(settled));
    CloningPrunes(once);
    PrunedWith(clone, "nodes", MapOf(settled));
    StrippedAgain(once, clone, settled);
  }

  lemma StrippedAgain(once: Js, clone: Js, settled: seq<Entry>)
    requires clone.Obj? && once == With(clone, "nodes", MapOf(settled))
    requires Clone(once) == Some(With(clone, "nodes", MapOf(PrunedEntries(settled))))
    requires StripNodes(PrunedEntries(settled)) == Some(settled)
    ensures Stripped(once) == Some(once)
  {
    var cloned := With(clone, "nodes", MapOf(PrunedEntries(settled)));
    assert cloned.fields["nodes"] == MapOf(PrunedEntries(settled));
    assert With(cloned, "nodes", MapOf(settled)) == once;
  }
}
