/** When decomposition preserves meaning: the lookups and the filtered primary step together
    return the rows that the query joined across data sources asks for, exactly if the
    equalities the steps impose force those the query states, and the other way round. */
module CrossDbMeaning {
  import opened Common
  import opened Digraph
  import opened DataValues
  import opened CrossDbDecomposer
  import opened QueryExecutor
  import opened JoinRuns

  // ----- the queries considered -----

  /** An inner join, whose lookup, if it has one, can be referred to. */
  predicate PlainJoin(j: Join, intent: Intent, routing: Routing) {
    && j.kind == Inner && j.table != ""
    && (IsForeign(j.table, intent, routing) ==> '.' !in j.table && ColumnOf(OnRight(j)) != "")
  }

  /** Inner joins to tables of their own, each ON naming tables that are there; filters are
      about tables that are there too. */
  ghost predicate PlainQuery(intent: Intent, routing: Routing) {
    && intent.table != ""
    && (forall j <- intent.joins :: PlainJoin(j, intent, routing))
    && InScope({intent.table}, intent.joins, intent.table)
    && (forall f <- intent.filters :: f.valueRef == "" && Placed(f, intent, routing))
  }

  // ----- the equalities -----

  type Equality = (ColRef, ColRef)

  /** The equality the ON of a join states. */
  function Stated(j: Join, intent: Intent): Equality {
    (LeftRef(j, intent.table), RightRef(j))
  }

  /** The equality the steps impose for a foreign join: what its lookup finds in the column
      its right operand names is put to the column of the primary table its left one names. */
  function Imposed(j: Join, intent: Intent): Equality {
    ((intent.table, TagOf(j).linkColumn), (j.table, TagOf(j).foreignColumn))
  }

  ghost function AllStated(intent: Intent): (r: set<Equality>)
    ensures forall e :: e in r <==> exists j <- intent.joins :: e == Stated(j, intent)
  {
    set j | j in intent.joins :: Stated(j, intent)
  }

  ghost function AllImposed(intent: Intent, routing: Routing): (r: set<Equality>)
    ensures forall e :: e in r <==> exists j <- intent.joins ::
                                      e == if IsForeign(j.table, intent, routing) then Imposed(j, intent) else Stated(j, intent)
  {
    set j | j in intent.joins :: if IsForeign(j.table, intent, routing) then Imposed(j, intent) else Stated(j, intent)
  }

  ghost function BothWays(r: set<Equality>): (s: set<Equality>)
    ensures forall x, y :: (x, y) in s <==> (x, y) in r || (y, x) in r
  {
    r + Reverse(r)
  }

  /** Where these equalities of non-null values hold, so does this one: a chain of them, of at
      least one link, leads from one side to the other. */
  ghost predicate Forces(r: set<Equality>, e: Equality) {
    exists z :: (e.0, z) in BothWays(r) && Reaches(BothWays(r), z, e.1)
  }

  /** Joins within the source keep to it; and for each join to another source the equality it
      states and the one the steps impose are each forced by all those of the other side. */
  ghost predicate Equivalent(intent: Intent, routing: Routing) {
    && (forall j <- intent.joins :: !IsForeign(j.table, intent, routing) ==> KeepsToSource(j, intent, routing))
    && (forall j <- intent.joins :: IsForeign(j.table, intent, routing) ==>
          && Forces(AllImposed(intent, routing), Stated(j, intent))
          && Forces(AllStated(intent), Imposed(j, intent)))
  }

  predicate KeepsToSource(j: Join, intent: Intent, routing: Routing) {
    && !IsForeign(LeftRef(j, intent.table).0, intent, routing)
    && !IsForeign(RightRef(j).0, intent, routing)
  }

  predicate EqualityHolds(e: Equality, b: Binding) {
    SqlEqual(At(b, e.0), At(b, e.1))
  }

  lemma {:induction false} PathHolds(r: set<Equality>, p: seq<ColRef>, b: Binding)
    requires IsPath(BothWays(r), p) && forall e <- r :: EqualityHolds(e, b)
    requires At(b, p[0]) != Null
    ensures SqlEqual(At(b, p[0]), At(b, p[|p| - 1]))
  {
    if |p| > 1 {
      PathHolds(r, p[..|p| - 1], b);
      assert (p[|p| - 2], p[|p| - 1]) in BothWays(r);
      assert (p[|p| - 2], p[|p| - 1]) in r || (p[|p| - 1], p[|p| - 2]) in r;
    }
  }

  lemma ForcedHolds(r: set<Equality>, e: Equality, b: Binding)
    requires Forces(r, e) && forall f <- r :: EqualityHolds(f, b)
    ensures EqualityHolds(e, b)
  {
    var z :| (e.0, z) in BothWays(r) && Reaches(BothWays(r), z, e.1);
    assert (e.0, z) in r || (z, e.0) in r;
    assert SqlEqual(At(b, e.0), At(b, z));
    var p: seq<ColRef> :| PathFrom(BothWays(r), p, z, e.1);
    PathHolds(r, p, b);
  }

  // ----- lookups -----

  /** What a lookup finds in its column: the non-null values of the rows that pass. */
  function Found(rows: seq<Row>, table: string, column: string, fs: seq<Condition>, data: Data): seq<Value> {
    if rows == [] then []
    else
      var passes := Cell(rows[0], column) != Null && AllHold(fs, table, map[table := rows[0]], data);
      (if passes then [Cell(rows[0], column)] else []) + Found(rows[1..], table, column, fs, data)
  }

  function FoundIn(j: Join, rows: seq<Row>, intent: Intent, data: Data): seq<Value> {
    Found(rows, j.table, TagOf(j).foreignColumn, ForeignFilters(intent, j.table), data)
  }

  function FoundBy(j: Join, intent: Intent, data: Data): seq<Value> {
    FoundIn(j, data.rows(j.table), intent, data)
  }

  /** A row the lookup finds: it passes the filters on its table and has a value. */
  predicate Counts(j: Join, row: Row, intent: Intent, data: Data) {
    Cell(row, TagOf(j).foreignColumn) != Null && forall f <- ForeignFilters(intent, j.table) :: HoldsAt(f, row, data)
  }

  lemma FoundStep(j: Join, rows: seq<Row>, intent: Intent, data: Data)
    requires rows != [] && j.table != ""
    ensures FoundIn(j, rows, intent, data)
            == (if Counts(j, rows[0], intent, data) then [Cell(rows[0], TagOf(j).foreignColumn)] else [])
               + FoundIn(j, rows[1..], intent, data)
  {
    forall f | f in ForeignFilters(intent, j.table)
      ensures Holds(f, j.table, map[j.table := rows[0]], data) == HoldsAt(f, rows[0], data)
    {
      assert f.table == j.table;
    }
  }

  lemma {:induction false} FoundIsCounted(j: Join, rows: seq<Row>, row: Row, intent: Intent, data: Data)
    requires j.table != "" && row in rows && Counts(j, row, intent, data)
    ensures Cell(row, TagOf(j).foreignColumn) in FoundIn(j, rows, intent, data)
  {
    FoundStep(j, rows, intent, data);
    if row != rows[0] {
      FoundIsCounted(j, rows[1..], row, intent, data);
    }
  }

  /** Each lookup found exactly one value. */
  ghost predicate UniqueLookups(intent: Intent, routing: Routing, data: Data) {
    forall j <- intent.joins :: IsForeign(j.table, intent, routing) ==> |FoundBy(j, intent, data)| == 1
  }

  // ----- leaves of the query and of the primary step -----

  /** The rows taken of other sources are ones the lookups found. */
  predicate AllCount(joins: seq<Join>, leaf: Binding, intent: Intent, routing: Routing, data: Data) {
    forall j <- joins :: IsForeign(j.table, intent, routing) ==> j.table in leaf && Counts(j, leaf[j.table], intent, data)
  }

  /** The local part passes, and the rows of other sources are those found. */
  ghost function LocalTest(
    joins: seq<Join>, intent: Intent, routing: Routing, data: Data, test: Binding -> bool): Binding -> bool
  {
    leaf => test(LocalPart(leaf, intent, routing)) && AllCount(joins, leaf, intent, routing, data)
  }

  /** Where each lookup counts exactly one row, the leaves that take just those rows are, up to
      their foreign part, the leaves of the local joins. */
  lemma {:induction false} LeavesMatch(
    b: Binding, joins: seq<Join>, intent: Intent, routing: Routing, data: Data, test: Binding -> bool)
    requires DistinctJoins(joins) && forall j <- joins :: j.table != ""
    requires forall j <- joins :: IsForeign(j.table, intent, routing) ==> |FoundBy(j, intent, data)| == 1
    ensures LocalParts(Filter(Leaves(b, joins, data), LocalTest(joins, intent, routing, data, test)), intent, routing)
         == Filter(Leaves(LocalPart(b, intent, routing), LocalOf(joins, intent, routing), data), test)
    decreases |joins|, 1, 0
  {
    if joins == [] {
      assert Leaves(b, joins, data) == [b];
    } else {
      var j, rest := joins[0], joins[1..];
      assert j in joins && joins == [j] + rest;
      if IsForeign(j.table, intent, routing) {
        ForeignLeavesMatch(b, joins, data.rows(j.table), intent, routing, data, test);
      } else {
        LocalLeavesMatch(b, joins, data.rows(j.table), intent, routing, data, test);
        assert LocalOf(joins, intent, routing) == [j] + LocalOf(rest, intent, routing);
      }
    }
  }

  /** The leaves through one row of the first join. */
  lemma RowOfFirst(
    b: Binding, joins: seq<Join>, row: Row, intent: Intent, routing: Routing, data: Data, test: Binding -> bool)
    requires joins != [] && DistinctJoins(joins)
    ensures Filter(Leaves(b[joins[0].table := row], joins[1..], data), LocalTest(joins, intent, routing, data, test))
         == if IsForeign(joins[0].table, intent, routing) && !Counts(joins[0], row, intent, data) then []
            else Filter(Leaves(b[joins[0].table := row], joins[1..], data), LocalTest(joins[1..], intent, routing, data, test))
  {
    var b1, j, rest := b[joins[0].table := row], joins[0], joins[1..];
    LeavesExtend(b1, rest, data);
    assert joins == [j] + rest && j.table !in TablesOf(rest);
    forall leaf | leaf in Leaves(b1, rest, data)
      ensures leaf[j.table] == row
      ensures AllCount(joins, leaf, intent, routing, data) <==>
              && (IsForeign(j.table, intent, routing) ==> Counts(j, row, intent, data))
              && AllCount(rest, leaf, intent, routing, data)
    {
      assert Extends(leaf, b1, rest, data);
    }
    if IsForeign(j.table, intent, routing) && !Counts(j, row, intent, data) {
      FilterNone(Leaves(b1, rest, data), LocalTest(joins, intent, routing, data, test));
    } else {
      FilterSame(Leaves(b1, rest, data), LocalTest(joins, intent, routing, data, test),
                 LocalTest(rest, intent, routing, data, test));
    }
  }

  lemma {:induction false} LocalLeavesMatch(
    b: Binding, joins: seq<Join>, rows: seq<Row>, intent: Intent, routing: Routing, data: Data, test: Binding -> bool)
    requires joins != [] && DistinctJoins(joins) && forall j <- joins :: j.table != ""
    requires !IsForeign(joins[0].table, intent, routing)
    requires forall j <- joins :: IsForeign(j.table, intent, routing) ==> |FoundBy(j, intent, data)| == 1
    ensures LocalParts(Filter(LeavesOver(b, joins, rows, data), LocalTest(joins, intent, routing, data, test)), intent, routing)
         == Filter(LeavesOver(LocalPart(b, intent, routing), [joins[0]] + LocalOf(joins[1..], intent, routing), rows, data), test)
    decreases |joins|, 0, |rows|
  {
    if rows != [] {
      var j, rest, b1 := joins[0], joins[1..], b[joins[0].table := rows[0]];
      var local, localRest := LocalPart(b, intent, routing), LocalOf(joins[1..], intent, routing);
      var p := LocalTest(joins, intent, routing, data, test);
      assert LocalPart(b1, intent, routing) == local[j.table := rows[0]];
      assert ([j] + localRest)[1..] == localRest;
      RowOfFirst(b, joins, rows[0], intent, routing, data, test);
      LeavesMatch(b1, rest, intent, routing, data, test);
      LocalLeavesMatch(b, joins, rows[1..], intent, routing, data, test);
      FilterConcat(Leaves(b1, rest, data), LeavesOver(b, joins, rows[1..], data), p);
      LocalPartsConcat(Filter(Leaves(b1, rest, data), p), Filter(LeavesOver(b, joins, rows[1..], data), p), intent, routing);
      FilterConcat(Leaves(local[j.table := rows[0]], localRest, data),
                   LeavesOver(local, [j] + localRest, rows[1..], data), test);
    }
  }

  /** Of the rows of a foreign table only the one found leaves anything. */
  lemma {:induction false} ForeignLeavesMatch(
    b: Binding, joins: seq<Join>, rows: seq<Row>, intent: Intent, routing: Routing, data: Data, test: Binding -> bool)
    requires joins != [] && DistinctJoins(joins) && forall j <- joins :: j.table != ""
    requires IsForeign(joins[0].table, intent, routing) && |FoundIn(joins[0], rows, intent, data)| <= 1
    requires forall j <- joins :: IsForeign(j.table, intent, routing) ==> |FoundBy(j, intent, data)| == 1
    ensures LocalParts(Filter(LeavesOver(b, joins, rows, data), LocalTest(joins, intent, routing, data, test)), intent, routing)
         == if |FoundIn(joins[0], rows, intent, data)| == 1
            then Filter(Leaves(LocalPart(b, intent, routing), LocalOf(joins[1..], intent, routing), data), test)
            else []
    decreases |joins|, 0, |rows|
  {
    if rows != [] {
      var j, rest, b1 := joins[0], joins[1..], b[joins[0].table := rows[0]];
      var p := LocalTest(joins, intent, routing, data, test);
      assert j in joins;
      FoundStep(j, rows, intent, data);
      RowOfFirst(b, joins, rows[0], intent, routing, data, test);
      assert LocalPart(b1, intent, routing) == LocalPart(b, intent, routing);
      if Counts(j, rows[0], intent, data) {
        LeavesMatch(b1, rest, intent, routing, data, test);
      }
      ForeignLeavesMatch(b, joins, rows[1..], intent, routing, data, test);
      FilterConcat(Leaves(b1, rest, data), LeavesOver(b, joins, rows[1..], data), p);
      LocalPartsConcat(Filter(Leaves(b1, rest, data), p), Filter(LeavesOver(b, joins, rows[1..], data), p), intent, routing);
    }
  }

  // ----- lookups and links -----

  /** The rows a step hands on, its own filters being resolved. */
  function Output(intent: Intent, data: Data): seq<Row> {
    SelectedAll(Run(intent, data), intent.columns)
  }

  /** Every lookup step has run and left its rows. */
  ghost predicate LookupsRan(intent: Intent, routing: Routing, data: Data, outputs: Outputs) {
    forall j <- ForeignJoins(intent, routing) ::
      && LookupId(j.table) in outputs
      && outputs[LookupId(j.table)] == Output(LookupStep(j, intent, routing).intent, data)
  }

  lemma {:induction false} LookupOutput(rows: seq<Row>, lookup: Intent, column: string, data: Data)
    requires lookup.joins == [] && lookup.columns == [Column(column, lookup.table)]
    ensures ColumnValues(SelectedAll(RunOver(rows, lookup, data), lookup.columns), column)
         == Found(rows, lookup.table, column, lookup.filters, data)
  {
    if rows != [] {
      var b: Binding := map[lookup.table := rows[0]];
      LookupOutput(rows[1..], lookup, column, data);
      var rest := RunOver(rows[1..], lookup, data);
      if AllHold(lookup.filters, lookup.table, b, data) {
        assert RunOver(rows, lookup, data) == [b] + rest;
        assert Selected(b, lookup.columns) == map[column := Cell(rows[0], column)];
        var all := SelectedAll([b] + rest, lookup.columns);
        assert all == [Selected(b, lookup.columns)] + SelectedAll(rest, lookup.columns);
      } else {
        assert RunOver(rows, lookup, data) == rest;
      }
    }
  }

  /** A link filter resolves to what its lookup found, if that is one value. */
  lemma LinkResolves(j: Join, intent: Intent, routing: Routing, data: Data, outputs: Outputs)
    requires j in ForeignJoins(intent, routing) && PlainQuery(intent, routing)
    requires LookupsRan(intent, routing, data, outputs)
    ensures ResolveFilter(LinkFilter(j, intent), outputs).Ok? <==> |FoundBy(j, intent, data)| == 1
    ensures |FoundBy(j, intent, data)| == 1 ==>
              ResolveFilter(LinkFilter(j, intent), outputs)
              == Ok(Condition(TagOf(j).linkColumn, intent.table, "IN", Arr(FoundBy(j, intent, data)), ""))
  {
    assert j in intent.joins && PlainJoin(j, intent, routing);
    var column := TagOf(j).foreignColumn;
    ColumnHasNoDot(OnRight(j));
    assert '.' !in "lookup_" && '.' !in LookupId(j.table);
    RefRoundTrips(LookupId(j.table), column);
    assert LinkFilter(j, intent).valueRef[0] == '$';
    LookupOutput(data.rows(j.table), LookupStep(j, intent, routing).intent, column, data);
  }

  function Link(j: Join, intent: Intent, data: Data): Condition {
    Condition(TagOf(j).linkColumn, intent.table, "IN", Arr(FoundBy(j, intent, data)), "")
  }

  function Links(js: seq<Join>, intent: Intent, data: Data): seq<Condition> {
    seq(|js|, i requires 0 <= i < |js| => Link(js[i], intent, data))
  }

  // ----- one leaf -----

  lemma LocalAt(leaf: Binding, ref: ColRef, intent: Intent, routing: Routing)
    requires !IsForeign(ref.0, intent, routing)
    ensures At(LocalPart(leaf, intent, routing), ref) == At(leaf, ref)
  {
  }

  lemma FiltersSplit(leaf: Binding, intent: Intent, routing: Routing, data: Data)
    requires PlainQuery(intent, routing) && forall j <- intent.joins :: j.table in leaf
    ensures AllHold(intent.filters, intent.table, leaf, data)
       <==> && AllHold(LocalFilters(intent, routing), intent.table, LocalPart(leaf, intent, routing), data)
            && forall j <- ForeignJoins(intent, routing) ::
                 forall f <- ForeignFilters(intent, j.table) :: HoldsAt(f, leaf[j.table], data)
  {
    var local := LocalPart(leaf, intent, routing);
    forall f | f in LocalFilters(intent, routing)
      ensures f in intent.filters && Holds(f, intent.table, leaf, data) == Holds(f, intent.table, local, data)
    {
    }
    forall j, f | j in ForeignJoins(intent, routing) && f in ForeignFilters(intent, j.table)
      ensures f in intent.filters && Holds(f, intent.table, leaf, data) == HoldsAt(f, leaf[j.table], data)
    {
      assert j in intent.joins && j.table != "";
    }
    forall f | f in intent.filters && f !in LocalFilters(intent, routing)
      ensures exists j <- ForeignJoins(intent, routing) :: f in ForeignFilters(intent, j.table)
    {
      assert NamesForeignJoin(f, intent, routing);
    }
  }

  lemma OnsSplit(leaf: Binding, intent: Intent, routing: Routing)
    requires forall j <- intent.joins :: !IsForeign(j.table, intent, routing) ==> KeepsToSource(j, intent, routing)
    ensures AllOn(LocalJoins(intent, routing), intent.table, LocalPart(leaf, intent, routing))
       <==> forall j <- intent.joins :: !IsForeign(j.table, intent, routing) ==> EqualityHolds(Stated(j, intent), leaf)
  {
    forall j | j in intent.joins && !IsForeign(j.table, intent, routing)
      ensures OnHolds(j, intent.table, LocalPart(leaf, intent, routing)) == EqualityHolds(Stated(j, intent), leaf)
    {
      LocalAt(leaf, LeftRef(j, intent.table), intent, routing);
      LocalAt(leaf, RightRef(j), intent, routing);
    }
  }

  /** A link holds of the primary row exactly if the imposed equality does, the foreign row
      being one the lookup counts. */
  lemma LinkMeansImposed(j: Join, leaf: Binding, intent: Intent, routing: Routing, data: Data)
    requires PlainQuery(intent, routing) && j in ForeignJoins(intent, routing) && |FoundBy(j, intent, data)| == 1
    requires intent.table in leaf && j.table in leaf && leaf[j.table] in data.rows(j.table)
    requires Counts(j, leaf[j.table], intent, data)
    ensures Holds(Link(j, intent, data), intent.table, LocalPart(leaf, intent, routing), data)
       <==> EqualityHolds(Imposed(j, intent), leaf)
  {
    assert j in intent.joins && j.table != "";
    FoundIsCounted(j, data.rows(j.table), leaf[j.table], intent, data);
    var found := FoundBy(j, intent, data);
    assert found == [found[0]] && found[0] == At(leaf, Imposed(j, intent).1);
    LocalAt(leaf, (intent.table, TagOf(j).linkColumn), intent, routing);
  }

  lemma LinksMeanImposed(leaf: Binding, intent: Intent, routing: Routing, data: Data)
    requires PlainQuery(intent, routing) && UniqueLookups(intent, routing, data) && intent.table in leaf
    requires forall j <- ForeignJoins(intent, routing) ::
               j.table in leaf && leaf[j.table] in data.rows(j.table) && Counts(j, leaf[j.table], intent, data)
    ensures AllHold(Links(ForeignJoins(intent, routing), intent, data), intent.table, LocalPart(leaf, intent, routing), data)
       <==> forall j <- ForeignJoins(intent, routing) :: EqualityHolds(Imposed(j, intent), leaf)
  {
    var foreign := ForeignJoins(intent, routing);
    var links := Links(foreign, intent, data);
    forall i | 0 <= i < |foreign|
      ensures links[i] in links && foreign[i] in foreign
      ensures Holds(links[i], intent.table, LocalPart(leaf, intent, routing), data)
         <==> EqualityHolds(Imposed(foreign[i], intent), leaf)
    {
      assert foreign[i] in foreign && foreign[i] in intent.joins && links[i] == Link(foreign[i], intent, data);
      LinkMeansImposed(foreign[i], leaf, intent, routing, data);
    }
  }

  function PrimaryTest(intent: Intent, routing: Routing, data: Data): Binding -> bool {
    Test(LocalJoins(intent, routing), LocalFilters(intent, routing) + Links(ForeignJoins(intent, routing), intent, data),
         intent.table, data)
  }

  lemma AllHoldConcat(fs: seq<Condition>, gs: seq<Condition>, primary: string, b: Binding, data: Data)
    ensures AllHold(fs + gs, primary, b, data) <==> AllHold(fs, primary, b, data) && AllHold(gs, primary, b, data)
  {
    assert forall f :: f in fs + gs <==> f in fs || f in gs;
  }

  /** Where every stated equality holds, so does every imposed one. */
  lemma StatedGiveImposed(leaf: Binding, intent: Intent, routing: Routing)
    requires Equivalent(intent, routing) && forall j <- intent.joins :: EqualityHolds(Stated(j, intent), leaf)
    ensures forall j <- ForeignJoins(intent, routing) :: EqualityHolds(Imposed(j, intent), leaf)
  {
    forall j | j in ForeignJoins(intent, routing) ensures EqualityHolds(Imposed(j, intent), leaf) {
      ForcedHolds(AllStated(intent), Imposed(j, intent), leaf);
    }
  }

  lemma ImposedGiveStated(leaf: Binding, intent: Intent, routing: Routing)
    requires Equivalent(intent, routing)
    requires forall j <- intent.joins :: !IsForeign(j.table, intent, routing) ==> EqualityHolds(Stated(j, intent), leaf)
    requires forall j <- ForeignJoins(intent, routing) :: EqualityHolds(Imposed(j, intent), leaf)
    ensures forall j <- intent.joins :: EqualityHolds(Stated(j, intent), leaf)
  {
    var all := AllImposed(intent, routing);
    forall e | e in all ensures EqualityHolds(e, leaf) {
      var j :| j in intent.joins && e == if IsForeign(j.table, intent, routing) then Imposed(j, intent) else Stated(j, intent);
      assert IsForeign(j.table, intent, routing) ==> j in ForeignJoins(intent, routing);
    }
    forall j | j in intent.joins && IsForeign(j.table, intent, routing) ensures EqualityHolds(Stated(j, intent), leaf) {
      ForcedHolds(all, Stated(j, intent), leaf);
    }
  }

  /** A way to take a row of each table passes the query exactly if its local part passes the
      primary step and its foreign rows are those the lookups found. */
  lemma LeafPasses(leaf: Binding, b: Binding, intent: Intent, routing: Routing, data: Data)
    requires PlainQuery(intent, routing) && Equivalent(intent, routing) && UniqueLookups(intent, routing, data)
    requires intent.table in b && Extends(leaf, b, intent.joins, data)
    ensures Test(intent.joins, intent.filters, intent.table, data)(leaf)
         == LocalTest(intent.joins, intent, routing, data, PrimaryTest(intent, routing, data))(leaf)
  {
    var foreign, local := ForeignJoins(intent, routing), LocalPart(leaf, intent, routing);
    var links := Links(foreign, intent, data);
    FiltersSplit(leaf, intent, routing, data);
    OnsSplit(leaf, intent, routing);
    AllHoldConcat(LocalFilters(intent, routing), links, intent.table, local, data);
    if AllOn(intent.joins, intent.table, leaf) && AllHold(intent.filters, intent.table, leaf, data) {
      StatedGiveImposed(leaf, intent, routing);
      LinksMeanImposed(leaf, intent, routing, data);
    }
    if AllCount(intent.joins, leaf, intent, routing, data) {
      LinksMeanImposed(leaf, intent, routing, data);
      if AllOn(LocalJoins(intent, routing), intent.table, local) && AllHold(links, intent.table, local, data) {
        ImposedGiveStated(leaf, intent, routing);
      }
    }
  }

  // ----- the main result -----

  /** The joins that stay are in scope among themselves. */
  lemma {:induction false} LocalInScope(
    bound: set<string>, localBound: set<string>, joins: seq<Join>, intent: Intent, routing: Routing)
    requires InScope(bound, joins, intent.table)
    requires localBound == set t | t in bound && !IsForeign(t, intent, routing)
    requires forall j <- joins :: !IsForeign(j.table, intent, routing) ==> KeepsToSource(j, intent, routing)
    ensures InScope(localBound, LocalOf(joins, intent, routing), intent.table)
    decreases |joins|
  {
    if joins != [] {
      var j, rest := joins[0], joins[1..];
      assert joins == [j] + rest;
      if IsForeign(j.table, intent, routing) {
        LocalInScope(bound + {j.table}, localBound, rest, intent, routing);
      } else {
        LocalInScope(bound + {j.table}, localBound + {j.table}, rest, intent, routing);
        assert ([j] + LocalOf(rest, intent, routing))[1..] == LocalOf(rest, intent, routing);
      }
    }
  }

  lemma JoinsAreInScope(row: Row, intent: Intent, routing: Routing)
    requires PlainQuery(intent, routing)
    requires forall j <- intent.joins :: !IsForeign(j.table, intent, routing) ==> KeepsToSource(j, intent, routing)
    ensures var b: Binding := map[intent.table := row];
            && b.Keys == {intent.table} && LocalPart(b, intent, routing) == b
            && InScope(b.Keys, intent.joins, intent.table)
            && InScope(b.Keys, LocalJoins(intent, routing), intent.table)
            && DistinctJoins(intent.joins)
  {
    LocalInScope({intent.table}, {intent.table}, intent.joins, intent, routing);
    InScopeIsDistinct({intent.table}, intent.joins, intent.table);
  }

  /** One row of the primary table. */
  lemma OnePrimaryRow(row: Row, intent: Intent, routing: Routing, data: Data)
    requires PlainQuery(intent, routing) && Equivalent(intent, routing) && UniqueLookups(intent, routing, data)
    ensures Bindings(map[intent.table := row], LocalJoins(intent, routing),
                     LocalFilters(intent, routing) + Links(ForeignJoins(intent, routing), intent, data), intent.table, data)
         == LocalParts(Bindings(map[intent.table := row], intent.joins, intent.filters, intent.table, data), intent, routing)
  {
    var b: Binding := map[intent.table := row];
    var test := PrimaryTest(intent, routing, data);
    JoinsAreInScope(row, intent, routing);
    BindingsAreLeaves(b, intent.joins, intent.filters, intent.table, data);
    BindingsAreLeaves(b, LocalJoins(intent, routing),
      LocalFilters(intent, routing) + Links(ForeignJoins(intent, routing), intent, data), intent.table, data);
    LeavesExtend(b, intent.joins, data);
    forall leaf | leaf in Leaves(b, intent.joins, data)
      ensures Test(intent.joins, intent.filters, intent.table, data)(leaf)
           == LocalTest(intent.joins, intent, routing, data, test)(leaf)
    {
      LeafPasses(leaf, b, intent, routing, data);
    }
    FilterSame(Leaves(b, intent.joins, data), Test(intent.joins, intent.filters, intent.table, data),
               LocalTest(intent.joins, intent, routing, data, test));
    LeavesMatch(b, intent.joins, intent, routing, data, test);
  }

  /** The primary step with its references resolved. */
  function Resolved(intent: Intent, routing: Routing, data: Data): Intent {
    intent.(joins := LocalJoins(intent, routing),
            filters := LocalFilters(intent, routing) + Links(ForeignJoins(intent, routing), intent, data))
  }

  /** The steps return, in the same order and with the same repeats, the rows of the query,
      less the tables of other sources. */
  ghost predicate Preserved(intent: Intent, routing: Routing, data: Data) {
    Run(Resolved(intent, routing, data), data) == LocalParts(Run(intent, data), intent, routing)
  }

  lemma {:induction false} EachPrimaryRow(rows: seq<Row>, intent: Intent, routing: Routing, data: Data)
    requires PlainQuery(intent, routing) && Equivalent(intent, routing) && UniqueLookups(intent, routing, data)
    ensures RunOver(rows, Resolved(intent, routing, data), data)
         == LocalParts(RunOver(rows, intent, data), intent, routing)
  {
    if rows != [] {
      OnePrimaryRow(rows[0], intent, routing, data);
      EachPrimaryRow(rows[1..], intent, routing, data);
      LocalPartsConcat(Bindings(map[intent.table := rows[0]], intent.joins, intent.filters, intent.table, data),
        RunOver(rows[1..], intent, data), intent, routing);
    }
  }

  type Resolver = Condition -> Result<Condition, ResolveError>

  /** Filters that resolve to themselves, followed by filters that resolve, if at all, to
      the expected ones. */
  lemma ResolvingBlocks(
    local: seq<Condition>, links: seq<Condition>, expected: seq<Condition>, unique: seq<bool>, resolve: Resolver)
    requires |links| == |expected| == |unique|
    requires forall i :: 0 <= i < |local| ==> resolve(local[i]) == Ok(local[i])
    requires forall i :: 0 <= i < |links| ==> resolve(links[i]).Ok? == unique[i]
    requires forall i :: 0 <= i < |links| ==> unique[i] ==> resolve(links[i]) == Ok(expected[i])
    ensures (forall i :: 0 <= i < |local + links| ==> resolve((local + links)[i]).Ok?) <==> (forall u <- unique :: u)
    ensures forall resolved: seq<Condition> ::
              |resolved| == |local + links|
              && (forall i :: 0 <= i < |local + links| ==> resolve((local + links)[i]) == Ok(resolved[i])) ==>
                resolved == local + expected && forall u <- unique :: u
  {
    var fs := local + links;
    forall i | 0 <= i < |unique|
      ensures resolve(fs[|local| + i]).Ok? == unique[i]
      ensures unique[i] ==> resolve(fs[|local| + i]) == Ok(expected[i])
    {
      assert fs[|local| + i] == links[i];
    }
    if forall u <- unique :: u {
      assert forall i :: 0 <= i < |unique| ==> unique[i] in unique;
      assert forall i :: |local| <= i < |fs| ==> fs[i] == fs[|local| + (i - |local|)];
    }
    forall resolved: seq<Condition> |
      |resolved| == |fs| && (forall i :: 0 <= i < |fs| ==> resolve(fs[i]) == Ok(resolved[i]))
      ensures resolved == local + expected && forall u <- unique :: u
    {
      forall i | 0 <= i < |unique|
        ensures unique[i] && resolved[|local| + i] == expected[i]
      {
        assert resolve(fs[|local| + i]) == Ok(resolved[|local| + i]);
      }
    }
  }

  lemma PrimaryStepBlocks(intent: Intent, routing: Routing, data: Data, outputs: Outputs)
    requires PlainQuery(intent, routing) && LookupsRan(intent, routing, data, outputs)
    ensures var local, foreign := LocalFilters(intent, routing), ForeignJoins(intent, routing);
      && (forall i :: 0 <= i < |local| ==> ResolveFilter(local[i], outputs) == Ok(local[i]))
      && (forall i :: 0 <= i < |foreign| ==>
            && ResolveFilter(LinkFilter(foreign[i], intent), outputs).Ok? == (|FoundBy(foreign[i], intent, data)| == 1)
            && (|FoundBy(foreign[i], intent, data)| == 1 ==>
                  ResolveFilter(LinkFilter(foreign[i], intent), outputs) == Ok(Link(foreign[i], intent, data))))
  {
    var local, foreign := LocalFilters(intent, routing), ForeignJoins(intent, routing);
    forall i | 0 <= i < |local|
      ensures ResolveFilter(local[i], outputs) == Ok(local[i])
    {
      assert local[i] in local;
    }
    forall i | 0 <= i < |foreign|
      ensures ResolveFilter(LinkFilter(foreign[i], intent), outputs).Ok? == (|FoundBy(foreign[i], intent, data)| == 1)
      ensures |FoundBy(foreign[i], intent, data)| == 1 ==>
                ResolveFilter(LinkFilter(foreign[i], intent), outputs) == Ok(Link(foreign[i], intent, data))
    {
      assert foreign[i] in foreign;
      LinkResolves(foreign[i], intent, routing, data, outputs);
    }
  }

  function UniqueFinds(js: seq<Join>, intent: Intent, data: Data): seq<bool> {
    seq(|js|, i requires 0 <= i < |js| => |FoundBy(js[i], intent, data)| == 1)
  }

  /** The executor accepts the primary step exactly when every lookup found one value, and
      then its filters are the local ones and the links. */
  lemma ResolvesJustWhenLookupsAreUnique(
    fs: seq<Condition>, intent: Intent, routing: Routing, data: Data, outputs: Outputs)
    requires PlainQuery(intent, routing) && LookupsRan(intent, routing, data, outputs)
    requires fs == LocalFilters(intent, routing) + LinkFilters(ForeignJoins(intent, routing), intent)
    ensures (forall i :: 0 <= i < |fs| ==> ResolveFilter(fs[i], outputs).Ok?)
       <==> forall u <- UniqueFinds(ForeignJoins(intent, routing), intent, data) :: u
    ensures forall resolved :: ResolvedAll(fs, resolved, outputs) ==>
              && (forall u <- UniqueFinds(ForeignJoins(intent, routing), intent, data) :: u)
              && resolved == LocalFilters(intent, routing) + Links(ForeignJoins(intent, routing), intent, data)
  {
    var foreign := ForeignJoins(intent, routing);
    PrimaryStepBlocks(intent, routing, data, outputs);
    ResolvingBlocks(LocalFilters(intent, routing), LinkFilters(foreign, intent), Links(foreign, intent, data),
      UniqueFinds(foreign, intent, data), f => ResolveFilter(f, outputs));
  }

  /** Decomposition preserves meaning: where the equalities are equivalent, after the lookups
      and with the references they resolve, the primary step returns, in the same order and
      with the same repeats, the rows of the original query, less the tables of other sources. */
  lemma DecompositionPreservesMeaning(
    nodeId: string, intent: Intent, routing: Routing, data: Data, outputs: Outputs, resolved: seq<Condition>)
    requires PlainQuery(intent, routing) && Equivalent(intent, routing)
    requires LookupsRan(intent, routing, data, outputs)
    requires ResolvedAll(PrimaryStep(nodeId, intent, routing).intent.filters, resolved, outputs)
    ensures Run(PrimaryStep(nodeId, intent, routing).intent.(filters := resolved), data)
         == LocalParts(Run(intent, data), intent, routing)
  {
    ResolvesJustWhenLookupsAreUnique(PrimaryStep(nodeId, intent, routing).intent.filters, intent, routing, data, outputs);
    AcceptedMeansUnique(intent, routing, data);
    EachPrimaryRow(data.rows(intent.table), intent, routing, data);
  }

  lemma AcceptedMeansUnique(intent: Intent, routing: Routing, data: Data)
    requires forall u <- UniqueFinds(ForeignJoins(intent, routing), intent, data) :: u
    ensures UniqueLookups(intent, routing, data)
  {
    var foreign := ForeignJoins(intent, routing);
    forall j | j in foreign ensures |FoundBy(j, intent, data)| == 1 {
      var i :| 0 <= i < |foreign| && foreign[i] == j;
      assert UniqueFinds(foreign, intent, data)[i] in UniqueFinds(foreign, intent, data);
    }
    assert forall j <- intent.joins :: IsForeign(j.table, intent, routing) ==> j in foreign;
  }
}
