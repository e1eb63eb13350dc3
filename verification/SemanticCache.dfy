/** Plans are cloned through JSON with their Maps tagged, and stripped of execution values,
    before they are cached. */
module SemanticCache {
  import opened Common

  /** A JavaScript value, as far as plans hold any.  A Map is its entries in order. */
  datatype Js =
    | Undefined | Null | Bool(b: bool) | Num(n: real) | Str(s: string)
    | Arr(items: seq<Js>) | Obj(fields: map<string, Js>) | MapOf(entries: seq<Entry>)

  datatype Entry = Entry(key: Js, value: Js)

  predicate IsTagged(fields: map<string, Js>) {
    "__type" in fields && fields["__type"] == Str("Map")
  }

  // ----- encoding: the replacer, and what JSON leaves out -----

  /** A Map becomes a tagged object; undefined becomes null in an array and is left out of an
      object. */
  function Encode(v: Js): Js {
    match v
    case Undefined => Null
    case Arr(items) => Arr(seq(|items|, i requires 0 <= i < |items| => Encode(items[i])))
    case Obj(fields) => Obj(map k | k in fields && fields[k] != Undefined :: Encode(fields[k]))
    case MapOf(entries) =>
      Obj(map["__type" := Str("Map"),
              "value" := Arr(seq(|entries|, i requires 0 <= i < |entries| =>
                               Arr([Encode(entries[i].key), Encode(entries[i].value)])))])
    case _ => v
  }

  // ----- reviving: bottom up, tagged objects become Maps -----

  function Revive(v: Js): Option<Js>
    decreases v, 0
  {
    match v
    case Arr(items) =>
      var all := ReviveAll(items);
      if all.Some? then Some(Arr(all.value)) else None
    case Obj(fields) =>
      if exists k <- fields :: Revive(fields[k]) == None then None
      else
        var revived := map k | k in fields :: Revive(fields[k]).value;
        if IsTagged(revived) then NewMap(if "value" in revived then revived["value"] else Undefined)
        else Some(Obj(revived))
    case _ => Some(v)
  }

  function ReviveAll(items: seq<Js>): (r: Option<seq<Js>>)
    ensures r.Some? <==> forall i :: 0 <= i < |items| ==> Revive(items[i]).Some?
    ensures r.Some? ==> |r.value| == |items| && forall i :: 0 <= i < |items| ==> r.value[i] == Revive(items[i]).value
    decreases items, 0
  {
    if items == [] then Some([])
    else
      match (Revive(items[0]), ReviveAll(items[1..]))
      case (Some(first), Some(rest)) => Some([first] + rest)
      case _ => None
  }

  /** `new Map(v)`; nothing where it throws. */
  function NewMap(v: Js): Option<Js> {
    match v
    case Undefined => Some(MapOf([]))
    case Null => Some(MapOf([]))
    case MapOf(entries) => Some(MapOf(entries))
    case Str(s) => if s == "" then Some(MapOf([])) else None
    case Arr(items) =>
      var entries := Pairs(items);
      if entries.Some? then Some(MapOf(entries.value)) else None
    case _ => None
  }

  function Pairs(items: seq<Js>): Option<seq<Entry>> {
    if items == [] then Some([])
    else
      match (Pair(items[|items| - 1]), Pairs(items[..|items| - 1]))
      case (Some(last), Some(init)) => Some(Put(init, last))
      case _ => None
  }

  function Pair(v: Js): Option<Entry> {
    match v
    case Arr(items) =>
      Some(Entry(if |items| > 0 then items[0] else Undefined, if |items| > 1 then items[1] else Undefined))
    case Obj(fields) =>
      Some(Entry(if "0" in fields then fields["0"] else Undefined, if "1" in fields then fields["1"] else Undefined))
    case MapOf(_) => Some(Entry(Undefined, Undefined))
    case _ => None
  }

  predicate IsPrimitive(v: Js) {
    !v.Arr? && !v.Obj? && !v.MapOf?
  }

  /** A primitive key that is present keeps its place and takes the new value. */
  function Put(entries: seq<Entry>, e: Entry): seq<Entry> {
    if entries == [] then [e]
    else if IsPrimitive(e.key) && entries[0].key == e.key then [e] + entries[1..]
    else [entries[0]] + Put(entries[1..], e)
  }

  /** Stringified and parsed again; stringifying undefined gives nothing to parse. */
  function Clone(v: Js): Option<Js> {
    if v == Undefined then None else Revive(Encode(v))
  }

  // ----- what survives -----

  /** Maps are keyed by distinct strings. */
  ghost predicate Genuine(v: Js) {
    match v
    case Arr(items) => forall x <- items :: Genuine(x)
    case Obj(fields) => forall k <- fields :: Genuine(fields[k])
    case MapOf(entries) =>
      && (forall i :: 0 <= i < |entries| ==> entries[i].key.Str? && Genuine(entries[i].value))
      && (forall i, j :: 0 <= i < j < |entries| ==> entries[i].key != entries[j].key)
    case _ => true
  }

  /** No plain object carries the Maps' tag. */
  ghost predicate Untagged(v: Js) {
    match v
    case Arr(items) => forall x <- items :: Untagged(x)
    case Obj(fields) => !IsTagged(fields) && forall k <- fields :: Untagged(fields[k])
    case MapOf(entries) => forall i :: 0 <= i < |entries| ==> Untagged(entries[i].value)
    case _ => true
  }

  ghost predicate Defined(v: Js) {
    match v
    case Undefined => false
    case Arr(items) => forall x <- items :: Defined(x)
    case Obj(fields) => forall k <- fields :: Defined(fields[k])
    case MapOf(entries) => forall i :: 0 <= i < |entries| ==> Defined(entries[i].value)
    case _ => true
  }

  /** A value without what JSON cannot hold. */
  function Pruned(v: Js): Js {
    match v
    case Undefined => Null
    case Arr(items) => Arr(seq(|items|, i requires 0 <= i < |items| => Pruned(items[i])))
    case Obj(fields) => Obj(map k | k in fields && fields[k] != Undefined :: Pruned(fields[k]))
    case MapOf(entries) =>
      MapOf(seq(|entries|, i requires 0 <= i < |entries| => Entry(entries[i].key, Pruned(entries[i].value))))
    case _ => v
  }

  lemma {:induction false} PutFresh(entries: seq<Entry>, e: Entry)
    requires forall i :: 0 <= i < |entries| ==> entries[i].key != e.key
    ensures Put(entries, e) == entries + [e]
  {
    if entries != [] {
      PutFresh(entries[1..], e);
      assert entries == [entries[0]] + entries[1..];
    }
  }

  lemma {:induction false} DistinctPairs(items: seq<Js>, entries: seq<Entry>)
    requires |items| == |entries|
    requires forall i :: 0 <= i < |items| ==> items[i] == Arr([entries[i].key, entries[i].value])
    requires forall i, j :: 0 <= i < j < |entries| ==> entries[i].key != entries[j].key
    ensures Pairs(items) == Some(entries)
  {
    if items != [] {
      var n := |items| - 1;
      DistinctPairs(items[..n], entries[..n]);
      PutFresh(entries[..n], entries[n]);
      assert Pair(items[n]) == Some(Entry(entries[n].key, entries[n].value));
      assert entries == entries[..n] + [entries[n]];
    }
  }

  function EncodedPairs(entries: seq<Entry>): seq<Js> {
    seq(|entries|, i requires 0 <= i < |entries| => Arr([Encode(entries[i].key), Encode(entries[i].value)]))
  }

  lemma PairRevives(key: Js, value: Js)
    requires key.Str?
    ensures Revive(Encode(value)).Some? ==>
              Revive(Arr([Encode(key), Encode(value)])) == Some(Arr([key, Revive(Encode(value)).value]))
    ensures Revive(Encode(value)) == None ==> Revive(Arr([Encode(key), Encode(value)])) == None
  {
    var items := [Encode(key), Encode(value)];
    assert items[0] == key && Revive(items[0]) == Some(key);
    assert items[1] == Encode(value);
    if Revive(Encode(value)).Some? {
      assert ReviveAll(items).value == [key, Revive(Encode(value)).value];
    }
  }

  ghost predicate AllRevive(fields: map<string, Js>) {
    forall k <- fields :: Revive(fields[k]).Some?
  }

  ghost function RevivedFields(fields: map<string, Js>): map<string, Js>
    requires AllRevive(fields)
  {
    map k | k in fields :: Revive(fields[k]).value
  }

  lemma ObjectRevives(fields: map<string, Js>)
    ensures !AllRevive(fields) ==> Revive(Obj(fields)) == None
    ensures AllRevive(fields) ==>
              var revived := RevivedFields(fields);
              Revive(Obj(fields))
              == if IsTagged(revived) then NewMap(if "value" in revived then revived["value"] else Undefined)
                 else Some(Obj(revived))
  {
    if AllRevive(fields) {
      assert (map k | k in fields :: Revive(fields[k]).value) == RevivedFields(fields);
    }
  }

  lemma PairsRevive(entries: seq<Entry>)
    requires Genuine(MapOf(entries))
    ensures (exists i :: 0 <= i < |entries| && Revive(Encode(entries[i].value)) == None) ==>
              ReviveAll(EncodedPairs(entries)) == None
    ensures (forall i :: 0 <= i < |entries| ==> Revive(Encode(entries[i].value)).Some?) ==>
              ReviveAll(EncodedPairs(entries)).Some?
              && Pairs(ReviveAll(EncodedPairs(entries)).value) == Some(RevivedEntries(entries))
  {
    var pairs := EncodedPairs(entries);
    forall i | 0 <= i < |entries|
      ensures Revive(Encode(entries[i].value)).Some? ==>
                Revive(pairs[i]) == Some(Arr([entries[i].key, Revive(Encode(entries[i].value)).value]))
      ensures Revive(Encode(entries[i].value)) == None ==> Revive(pairs[i]) == None
    {
      PairRevives(entries[i].key, entries[i].value);
    }
    if i :| 0 <= i < |entries| && Revive(Encode(entries[i].value)) == None {
      assert Revive(pairs[i]) == None;
    } else {
      DistinctPairs(ReviveAll(pairs).value, RevivedEntries(entries));
    }
  }

  /** An object that is revived as the tagged form of a Map. */
  lemma TaggedFieldsRevive(fields: map<string, Js>, pairs: seq<Js>)
    requires fields.Keys == {"__type", "value"} && fields["__type"] == Str("Map") && fields["value"] == Arr(pairs)
    ensures Revive(Obj(fields)) == if ReviveAll(pairs).Some? then NewMap(Arr(ReviveAll(pairs).value)) else None
  {
    assert Revive(fields["__type"]) == Some(Str("Map"));
    assert Revive(fields["value"]) == if ReviveAll(pairs).Some? then Some(Arr(ReviveAll(pairs).value)) else None;
    ObjectRevives(fields);
    if ReviveAll(pairs).Some? {
      assert IsTagged(RevivedFields(fields));
    }
  }

  lemma TaggedRevives(pairs: seq<Js>)
    ensures Revive(Obj(map["__type" := Str("Map"), "value" := Arr(pairs)]))
         == if ReviveAll(pairs).Some? then NewMap(Arr(ReviveAll(pairs).value)) else None
  {
    TaggedFieldsRevive(map["__type" := Str("Map"), "value" := Arr(pairs)], pairs);
  }

  /** A genuine Map comes back, its values cloned. */
  lemma MapRevives(entries: seq<Entry>)
    requires Genuine(MapOf(entries))
    ensures (exists i :: 0 <= i < |entries| && Revive(Encode(entries[i].value)) == None) ==>
              Revive(Encode(MapOf(entries))) == None
    ensures (forall i :: 0 <= i < |entries| ==> Revive(Encode(entries[i].value)).Some?) ==>
              Revive(Encode(MapOf(entries))) == Some(MapOf(RevivedEntries(entries)))
  {
    PairsRevive(entries);
    EncodedMapRevives(entries);
  }

  lemma EncodedMapRevives(entries: seq<Entry>)
    ensures var pairs := ReviveAll(EncodedPairs(entries));
            Revive(Encode(MapOf(entries))) == if pairs.Some? then NewMap(Arr(pairs.value)) else None
  {
    TaggedRevives(EncodedPairs(entries));
    assert Encode(MapOf(entries)) == Obj(map["__type" := Str("Map"), "value" := Arr(EncodedPairs(entries))]);
  }

  function RevivedEntries(entries: seq<Entry>): seq<Entry> {
    seq(|entries|, i requires 0 <= i < |entries| =>
      Entry(entries[i].key,
            if Revive(Encode(entries[i].value)).Some? then Revive(Encode(entries[i].value)).value else Undefined))
  }

  /** The properties an object is stringified with. */
  ghost function EncodedFields(fields: map<string, Js>): (encoded: map<string, Js>)
    ensures Encode(Obj(fields)) == Obj(encoded)
    ensures forall k :: k in encoded <==> k in fields && fields[k] != Undefined
    ensures forall k <- encoded :: encoded[k] == Encode(fields[k])
  {
    Encode(Obj(fields)).fields
  }

  /** A plain object comes back tagged exactly if it was tagged. */
  lemma TagIsKept(fields: map<string, Js>)
    requires AllRevive(EncodedFields(fields))
    ensures IsTagged(RevivedFields(EncodedFields(fields))) <==> IsTagged(fields)
  {
    if "__type" in EncodedFields(fields) {
      StringsComeFromStrings(fields["__type"]);
    }
    assert Revive(Str("Map")) == Some(Str("Map"));
  }

  lemma StringsComeFromStrings(v: Js)
    ensures Revive(Encode(v)).Some? && Revive(Encode(v)).value.Str? ==> v == Revive(Encode(v)).value
  {
    if v.Obj? {
      ObjectRevives(EncodedFields(v.fields));
    } else if v.MapOf? {
      ObjectRevives(Encode(v).fields);
    }
  }

  /** What cloning makes of any value without tagged objects. */
  lemma {:induction false} CloningPrunes(v: Js)
    requires Genuine(v) && Untagged(v)
    ensures Revive(Encode(v)) == Some(Pruned(v))
  {
    match v
    case Arr(items) =>
      forall i | 0 <= i < |items|
        ensures Revive(Encode(items[i])) == Some(Pruned(items[i]))
      {
        assert items[i] in items;
        CloningPrunes(items[i]);
      }
      var encoded := seq(|items|, i requires 0 <= i < |items| => Encode(items[i]));
      assert Encode(v) == Arr(encoded);
      assert ReviveAll(encoded).value == Pruned(v).items;
    case Obj(fields) =>
      forall k | k in fields
        ensures Revive(Encode(fields[k])) == Some(Pruned(fields[k]))
      {
        CloningPrunes(fields[k]);
      }
      PrunedObject(fields);
    case MapOf(entries) =>
      forall i | 0 <= i < |entries|
        ensures Revive(Encode(entries[i].value)) == Some(Pruned(entries[i].value))
      {
        CloningPrunes(entries[i].value);
      }
      MapRevives(entries);
      assert RevivedEntries(entries) == Pruned(v).entries;
    case _ =>
  }

  lemma PrunedObject(fields: map<string, Js>)
    requires !IsTagged(fields) && forall k <- fields :: Revive(Encode(fields[k])) == Some(Pruned(fields[k]))
    ensures Revive(Encode(Obj(fields))) == Some(Pruned(Obj(fields)))
  {
    var encoded := EncodedFields(fields);
    ObjectRevives(encoded);
    TagIsKept(fields);
    assert RevivedFields(encoded) == Pruned(Obj(fields)).fields;
  }

  lemma {:induction false} DefinedIsPruned(v: Js)
    requires Defined(v)
    ensures Pruned(v) == v
  {
    match v
    case Arr(items) =>
      forall i | 0 <= i < |items|
        ensures Pruned(items[i]) == items[i]
      {
        assert items[i] in items;
        DefinedIsPruned(items[i]);
      }
    case Obj(fields) =>
      forall k | k in fields
        ensures Pruned(fields[k]) == fields[k] && fields[k] != Undefined
      {
        DefinedIsPruned(fields[k]);
      }
    case MapOf(entries) =>
      forall i | 0 <= i < |entries|
        ensures Pruned(entries[i].value) == entries[i].value
      {
        DefinedIsPruned(entries[i].value);
      }
    case _ =>
  }

  lemma {:induction false} KeptIsClean(v: Js)
    requires Genuine(v) && Revive(Encode(v)) == Some(v)
    ensures Untagged(v) && Defined(v)
  {
    match v
    case Arr(items) =>
      var encoded := seq(|items|, i requires 0 <= i < |items| => Encode(items[i]));
      assert Encode(v) == Arr(encoded);
      forall i | 0 <= i < |items|
        ensures Untagged(items[i]) && Defined(items[i])
      {
        assert items[i] in items && Revive(encoded[i]).Some? && ReviveAll(encoded).value[i] == items[i];
        KeptIsClean(items[i]);
      }
    case Obj(fields) =>
      KeptObject(fields);
      forall k | k in fields
        ensures Untagged(fields[k]) && Defined(fields[k])
      {
        KeptIsClean(fields[k]);
      }
    case MapOf(entries) =>
      MapRevives(entries);
      forall i | 0 <= i < |entries|
        ensures Untagged(entries[i].value) && Defined(entries[i].value)
      {
        assert Revive(Encode(entries[i].value)).Some?;
        KeptIsClean(entries[i].value);
      }
    case _ =>
  }

  lemma KeptObject(fields: map<string, Js>)
    requires Revive(Encode(Obj(fields))) == Some(Obj(fields))
    ensures !IsTagged(fields)
    ensures forall k <- fields :: fields[k] != Undefined && Revive(Encode(fields[k])) == Some(fields[k])
  {
    var encoded := EncodedFields(fields);
    ObjectRevives(encoded);
    TagIsKept(fields);
    assert RevivedFields(encoded) == fields;
    forall k | k in fields
      ensures fields[k] != Undefined && Revive(Encode(fields[k])) == Some(fields[k])
    {
      assert k in RevivedFields(encoded) && k in encoded;
    }
  }

  /** Cloning is the identity exactly on values without undefined and without plain objects
      that carry the Maps' own tag. */
  lemma CloneIsIdentityExactlyOnClean(v: Js)
    requires Genuine(v)
    ensures Clone(v) == Some(v) <==> Untagged(v) && Defined(v)
  {
    if Untagged(v) && Defined(v) {
      CloningPrunes(v);
      DefinedIsPruned(v);
    }
    if Clone(v) == Some(v) {
      KeptIsClean(v);
    }
  }
}
