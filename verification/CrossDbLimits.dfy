/** Where decomposition fails: for a query whose equalities are not equivalent there are rows
    on which the steps and the query disagree, so the condition under which decomposition
    preserves meaning is exact. */
module CrossDbLimits {
  import opened Common
  import opened Digraph
  import opened DataValues
  import opened CrossDbDecomposer
  import opened JoinRuns
  import opened CrossDbMeaning

  // ----- one row in each table -----

  ghost function RefsOf(intent: Intent): (r: set<ColRef>)
    ensures forall j <- intent.joins ::
              Stated(j, intent).0 in r && Stated(j, intent).1 in r && Imposed(j, intent).0 in r && Imposed(j, intent).1 in r
  {
    (set j | j in intent.joins :: Stated(j, intent).0) + (set j | j in intent.joins :: Stated(j, intent).1)
    + (set j | j in intent.joins :: Imposed(j, intent).0) + (set j | j in intent.joins :: Imposed(j, intent).1)
  }

  type Assignment = ColRef -> Value

  ghost function OneRow(table: string, refs: set<ColRef>, val: Assignment): Row {
    map ref | ref in refs && ref.0 == table :: ref.1 := val(ref)
  }

  /** Every table has one row, with the given values in the columns the query mentions. */
  ghost function SingleRows(refs: set<ColRef>, val: Assignment): Data {
    Data(table => [OneRow(table, refs, val)], (f, row) => true)
  }

  ghost predicate ValuesMeet(e: Equality, val: Assignment) {
    SqlEqual(val(e.0), val(e.1))
  }

  /** The values meet what these joins state, or what the steps impose for them. */
  ghost predicate AllMeet(joins: seq<Join>, intent: Intent, val: Assignment) {
    forall j <- joins :: ValuesMeet(Stated(j, intent), val)
  }

  ghost predicate LinksMeet(joins: seq<Join>, intent: Intent, val: Assignment) {
    forall j <- joins :: ValuesMeet(Imposed(j, intent), val)
  }

  /** The one row taken of each joined table. */
  ghost predicate TakesSingles(leaf: Binding, joins: seq<Join>, intent: Intent, val: Assignment) {
    Extends(leaf, map[intent.table := OneRow(intent.table, RefsOf(intent), val)], joins, SingleRows(RefsOf(intent), val))
  }

  /** The values meet every stated equality. */
  ghost predicate MeetsStated(intent: Intent, val: Assignment) {
    AllMeet(intent.joins, intent, val)
  }

  ghost predicate MeetsImposed(intent: Intent, routing: Routing, val: Assignment) {
    forall j <- intent.joins ::
      ValuesMeet(if IsForeign(j.table, intent, routing) then Imposed(j, intent) else Stated(j, intent), val)
  }

  ghost predicate LocalsKeep(intent: Intent, routing: Routing) {
    forall j <- intent.joins :: !IsForeign(j.table, intent, routing) ==> KeepsToSource(j, intent, routing)
  }

  lemma {:induction false} OneLeaf(b: Binding, joins: seq<Join>, data: Data)
    requires forall t: string :: |data.rows(t)| == 1
    ensures |Leaves(b, joins, data)| == 1
    decreases |joins|
  {
    if joins != [] {
      var rows := data.rows(joins[0].table);
      OneLeaf(b[joins[0].table := rows[0]], joins[1..], data);
      assert rows[1..] == [] && LeavesOver(b, joins, [], data) == [];
    }
  }

  /** The only leaf has the given values. */
  lemma LeafValues(leaf: Binding, joins: seq<Join>, intent: Intent, val: Assignment, ref: ColRef)
    requires TakesSingles(leaf, joins, intent, val)
    requires intent.table !in TablesOf(joins) && ref in RefsOf(intent)
    requires ref.0 == intent.table || ref.0 in TablesOf(joins)
    ensures At(leaf, ref) == val(ref)
  {
    var row := OneRow(ref.0, RefsOf(intent), val);
    if ref.0 != intent.table {
      var j :| j in joins && j.table == ref.0;
      assert leaf[j.table] in SingleRows(RefsOf(intent), val).rows(j.table);
    }
    assert leaf[ref.0] == row && ref.1 in row;
    assert forall other <- RefsOf(intent) :: other.0 == ref.0 && other.1 == ref.1 ==> other == ref;
  }

  lemma SingleLookups(intent: Intent, routing: Routing, val: Assignment)
    requires PlainQuery(intent, routing) && intent.filters == []
    requires forall j <- ForeignJoins(intent, routing) :: val(Imposed(j, intent).1) != Null
    ensures UniqueLookups(intent, routing, SingleRows(RefsOf(intent), val))
    ensures forall j <- ForeignJoins(intent, routing) ::
              FoundBy(j, intent, SingleRows(RefsOf(intent), val)) == [val(Imposed(j, intent).1)]
  {
    var data := SingleRows(RefsOf(intent), val);
    forall j | j in ForeignJoins(intent, routing)
      ensures FoundBy(j, intent, data) == [val(Imposed(j, intent).1)]
    {
      var ref, row := Imposed(j, intent).1, OneRow(j.table, RefsOf(intent), val);
      assert j in intent.joins && j.table != "" && ref in RefsOf(intent);
      assert ref.1 in row && Cell(row, ref.1) == val(ref) by {
        assert forall other <- RefsOf(intent) :: other.0 == ref.0 && other.1 == ref.1 ==> other == ref;
      }
      assert data.rows(j.table) == [row] && [row][1..] == [];
      FoundStep(j, [row], intent, data);
    }
    assert forall j <- intent.joins :: IsForeign(j.table, intent, routing) ==> j in ForeignJoins(intent, routing);
  }

  // ----- what the query and the steps make of it -----

  lemma RunOfOne(intent: Intent, val: Assignment, refs: set<ColRef>, fs: seq<Condition>, joins: seq<Join>) returns (leaf: Binding)
    requires InScope({intent.table}, joins, intent.table)
    ensures var data, b := SingleRows(refs, val), map[intent.table := OneRow(intent.table, refs, val)];
      && Extends(leaf, b, joins, data)
      && Run(intent.(joins := joins, filters := fs), data)
         == if AllOn(joins, intent.table, leaf) && AllHold(fs, intent.table, leaf, data) then [leaf] else []
  {
    var data := SingleRows(refs, val);
    var row := OneRow(intent.table, refs, val);
    var b: Binding := map[intent.table := row];
    OneLeaf(b, joins, data);
    var leaves := Leaves(b, joins, data);
    leaf := leaves[0];
    assert leaves == [leaf] && leaf in leaves;
    InScopeIsDistinct({intent.table}, joins, intent.table);
    LeavesExtend(b, joins, data);
    assert b.Keys == {intent.table};
    BindingsAreLeaves(b, joins, fs, intent.table, data);
    assert [leaf][1..] == [];
    assert data.rows(intent.table) == [row] && [row][1..] == [];
    assert RunOver([], intent.(joins := joins, filters := fs), data) == [];
  }

  lemma LocalTables(intent: Intent, routing: Routing, t: string)
    ensures t in TablesOf(LocalJoins(intent, routing)) <==> t in TablesOf(intent.joins) && !IsForeign(t, intent, routing)
  {
    if t in TablesOf(intent.joins) && !IsForeign(t, intent, routing) {
      var j :| j in intent.joins && j.table == t;
      assert j in LocalJoins(intent, routing);
    }
  }

  lemma OnOfOne(j: Join, leaf: Binding, joins: seq<Join>, intent: Intent, val: Assignment)
    requires TakesSingles(leaf, joins, intent, val)
    requires InScope({intent.table}, joins, intent.table) && j in joins && j in intent.joins
    ensures OnHolds(j, intent.table, leaf) <==> ValuesMeet(Stated(j, intent), val)
  {
    InScopeIsDistinct({intent.table}, joins, intent.table);
    LeafValues(leaf, joins, intent, val, Stated(j, intent).0);
    LeafValues(leaf, joins, intent, val, Stated(j, intent).1);
  }

  lemma LinkOfOne(j: Join, leaf: Binding, joins: seq<Join>, intent: Intent, routing: Routing, val: Assignment, data: Data)
    requires TakesSingles(leaf, joins, intent, val)
    requires PlainQuery(intent, routing) && j in intent.joins && intent.table !in TablesOf(joins)
    requires FoundBy(j, intent, data) == [val(Imposed(j, intent).1)] && val(Imposed(j, intent).1) != Null
    ensures Holds(Link(j, intent, data), intent.table, leaf, data) <==> ValuesMeet(Imposed(j, intent), val)
  {
    var link, value := Link(j, intent, data), val(Imposed(j, intent).1);
    LeafValues(leaf, joins, intent, val, Imposed(j, intent).0);
    assert link.operator == "IN" && link.value == Arr([value]) && FilterTable(link, intent.table) == intent.table;
    assert forall v: Value :: v in [value] <==> v == value;
    assert Cell(RowOf(leaf, intent.table), link.field) == val(Imposed(j, intent).0);
  }

  lemma MeetsInParts(intent: Intent, routing: Routing, val: Assignment)
    ensures MeetsImposed(intent, routing, val)
       <==> AllMeet(LocalJoins(intent, routing), intent, val) && LinksMeet(ForeignJoins(intent, routing), intent, val)
  {
    forall j | j in intent.joins
      ensures j in (if IsForeign(j.table, intent, routing) then ForeignJoins(intent, routing) else LocalJoins(intent, routing))
    {
    }
  }

  lemma LinksOfOne(leaf: Binding, joins: seq<Join>, intent: Intent, routing: Routing, val: Assignment, data: Data)
    requires TakesSingles(leaf, joins, intent, val)
    requires PlainQuery(intent, routing) && intent.table !in TablesOf(joins)
    requires forall j <- ForeignJoins(intent, routing) ::
               FoundBy(j, intent, data) == [val(Imposed(j, intent).1)] && val(Imposed(j, intent).1) != Null
    ensures AllHold(Links(ForeignJoins(intent, routing), intent, data), intent.table, leaf, data)
       <==> LinksMeet(ForeignJoins(intent, routing), intent, val)
  {
    var foreign := ForeignJoins(intent, routing);
    forall j | j in foreign
      ensures Holds(Link(j, intent, data), intent.table, leaf, data) <==> ValuesMeet(Imposed(j, intent), val)
    {
      LinkOfOne(j, leaf, joins, intent, routing, val, data);
    }
    AllLinksHold(foreign, leaf, intent, data);
  }

  lemma AllLinksHold(js: seq<Join>, leaf: Binding, intent: Intent, data: Data)
    ensures AllHold(Links(js, intent, data), intent.table, leaf, data)
       <==> forall j <- js :: Holds(Link(j, intent, data), intent.table, leaf, data)
  {
    var links := Links(js, intent, data);
    assert forall i :: 0 <= i < |js| ==> links[i] == Link(js[i], intent, data) && links[i] in links && js[i] in js;
    if AllHold(links, intent.table, leaf, data) {
      forall j | j in js ensures Holds(Link(j, intent, data), intent.table, leaf, data) {
        var i :| 0 <= i < |js| && js[i] == j;
      }
    }
  }

  lemma OnsOfOne(leaf: Binding, joins: seq<Join>, intent: Intent, val: Assignment)
    requires TakesSingles(leaf, joins, intent, val)
    requires InScope({intent.table}, joins, intent.table) && forall j <- joins :: j in intent.joins
    ensures AllOn(joins, intent.table, leaf) <==> AllMeet(joins, intent, val)
  {
    forall j | j in joins ensures OnHolds(j, intent.table, leaf) <==> ValuesMeet(Stated(j, intent), val) {
      OnOfOne(j, leaf, joins, intent, val);
    }
  }

  /** The query gives a row exactly if the values meet what it states. */
  lemma QueryOfOne(intent: Intent, routing: Routing, val: Assignment)
    requires PlainQuery(intent, routing) && intent.filters == []
    ensures Run(intent, SingleRows(RefsOf(intent), val)) != [] <==> MeetsStated(intent, val)
  {
    assert intent.(joins := intent.joins, filters := []) == intent;
    var leaf := RunOfOne(intent, val, RefsOf(intent), [], intent.joins);
    OnsOfOne(leaf, intent.joins, intent, val);
  }

  lemma StepsLeaf(leaf: Binding, intent: Intent, routing: Routing, val: Assignment, data: Data)
    requires PlainQuery(intent, routing) && LocalsKeep(intent, routing)
    requires TakesSingles(leaf, LocalJoins(intent, routing), intent, val)
    requires forall j <- ForeignJoins(intent, routing) ::
               FoundBy(j, intent, data) == [val(Imposed(j, intent).1)] && val(Imposed(j, intent).1) != Null
    ensures AllOn(LocalJoins(intent, routing), intent.table, leaf)
            && AllHold(Links(ForeignJoins(intent, routing), intent, data), intent.table, leaf, data)
       <==> MeetsImposed(intent, routing, val)
  {
    var local, foreign := LocalJoins(intent, routing), ForeignJoins(intent, routing);
    LocalScope(intent, routing);
    assert AllOn(local, intent.table, leaf) <==> AllMeet(local, intent, val) by {
      OnsOfOne(leaf, local, intent, val);
    }
    assert AllHold(Links(foreign, intent, data), intent.table, leaf, data) <==> LinksMeet(foreign, intent, val) by {
      LinksOfOne(leaf, local, intent, routing, val, data);
    }
    MeetsInParts(intent, routing, val);
  }

  lemma LocalScope(intent: Intent, routing: Routing)
    requires PlainQuery(intent, routing) && LocalsKeep(intent, routing)
    ensures InScope({intent.table}, LocalJoins(intent, routing), intent.table)
    ensures intent.table !in TablesOf(LocalJoins(intent, routing))
  {
    LocalInScope({intent.table}, {intent.table}, intent.joins, intent, routing);
    InScopeIsDistinct({intent.table}, LocalJoins(intent, routing), intent.table);
  }

  /** The steps give a row exactly if the values meet what they impose. */
  lemma StepsOfOne(intent: Intent, routing: Routing, val: Assignment)
    requires PlainQuery(intent, routing) && intent.filters == [] && LocalsKeep(intent, routing)
    requires forall j <- ForeignJoins(intent, routing) :: val(Imposed(j, intent).1) != Null
    ensures var data := SingleRows(RefsOf(intent), val);
            Run(Resolved(intent, routing, data), data) != [] <==> MeetsImposed(intent, routing, val)
  {
    var data := SingleRows(RefsOf(intent), val);
    var links := Links(ForeignJoins(intent, routing), intent, data);
    SingleLookups(intent, routing, val);
    LocalScope(intent, routing);
    assert LocalFilters(intent, routing) + links == links;
    var leaf := RunOfOne(intent, val, RefsOf(intent), links, LocalJoins(intent, routing));
    StepsLeaf(leaf, intent, routing, val, data);
  }

  // ----- joins that leave their source -----

  /** A join whose ON names a table that is never bound gives nothing. */
  lemma {:induction false} UnboundLeavesNothing(
    b: Binding, joins: seq<Join>, x: Join, t: string, fs: seq<Condition>, primary: string, data: Data)
    requires x in joins && t !in b.Keys + TablesOf(joins)
    requires LeftRef(x, primary).0 == t || RightRef(x).0 == t
    ensures Bindings(b, joins, fs, primary, data) == []
    decreases |joins|, 1, 0
  {
    UnboundExtendsToNothing(b, joins, x, t, data.rows(joins[0].table), fs, primary, data);
  }

  lemma {:induction false} UnboundExtendsToNothing(
    b: Binding, joins: seq<Join>, x: Join, t: string, rows: seq<Row>, fs: seq<Condition>, primary: string, data: Data)
    requires x in joins && t !in b.Keys + TablesOf(joins)
    requires LeftRef(x, primary).0 == t || RightRef(x).0 == t
    ensures Extend(b, joins, rows, fs, primary, data) == []
    decreases |joins|, 0, |rows|
  {
    if rows != [] {
      var b1 := b[joins[0].table := rows[0]];
      assert joins == [joins[0]] + joins[1..];
      if x in joins[1..] {
        assert t !in b1.Keys + TablesOf(joins[1..]);
        UnboundLeavesNothing(b1, joins[1..], x, t, fs, primary, data);
      } else {
        assert !OnHolds(x, primary, b1);
      }
      UnboundExtendsToNothing(b, joins, x, t, rows[1..], fs, primary, data);
    }
  }

  lemma {:induction false} LeavingStepsGiveNothing(rows: seq<Row>, intent: Intent, routing: Routing, data: Data)
    requires !LocalsKeep(intent, routing)
    ensures RunOver(rows, Resolved(intent, routing, data), data) == []
  {
    if rows != [] {
      var x :| x in intent.joins && !IsForeign(x.table, intent, routing) && !KeepsToSource(x, intent, routing);
      var t := if IsForeign(LeftRef(x, intent.table).0, intent, routing) then LeftRef(x, intent.table).0 else RightRef(x).0;
      LocalTables(intent, routing, t);
      assert x in LocalJoins(intent, routing) && t != intent.table;
      var b: Binding := map[intent.table := rows[0]];
      UnboundLeavesNothing(b, LocalJoins(intent, routing), x, t, Resolved(intent, routing, data).filters, intent.table, data);
      LeavingStepsGiveNothing(rows[1..], intent, routing, data);
    }
  }

  // ----- values that tell the two apart -----

  const ONE := Num(1.0)
  const TWO := Num(2.0)

  ghost predicate Mentioned(r: set<Equality>, x: ColRef) {
    exists z :: (x, z) in BothWays(r)
  }

  ghost predicate SameClass(r: set<Equality>, x: ColRef, y: ColRef) {
    Reaches(BothWays(r), x, y)
  }

  /** 1 for what is forced equal to `x`, 2 for everything else; or, where nothing mentions x,
      no value for x and 1 for everything else. */
  ghost function Telling(r: set<Equality>, x: ColRef): Assignment {
    if Mentioned(r, x) then (y: ColRef) => if SameClass(r, x, y) then ONE else TWO
    else (y: ColRef) => if y == x then Null else ONE
  }

  /** These values meet the equalities, but none that they do not force of x. */
  lemma TellingMeets(r: set<Equality>, e: Equality)
    requires e in r
    ensures forall x :: ValuesMeet(e, Telling(r, x))
  {
    forall x ensures ValuesMeet(e, Telling(r, x)) {
      assert (e.0, e.1) in BothWays(r) && (e.1, e.0) in BothWays(r);
      if Mentioned(r, x) {
        if SameClass(r, x, e.0) {
          ReachesStep(BothWays(r), x, e.0, e.1);
        }
        if SameClass(r, x, e.1) {
          ReachesStep(BothWays(r), x, e.1, e.0);
        }
      } else {
        assert e.0 != x && e.1 != x;
      }
    }
  }

  lemma SameClassIsForced(r: set<Equality>, x: ColRef, y: ColRef)
    requires Mentioned(r, x) && SameClass(r, x, y)
    ensures Forces(r, (x, y))
  {
    var p: seq<ColRef> :| PathFrom(BothWays(r), p, x, y);
    if |p| == 1 {
      var z :| (x, z) in BothWays(r);
      ReachesSelf(BothWays(r), x);
      ReachesFirst(BothWays(r), z, x, x);
    } else {
      var rest := p[1..];
      assert (p[0], p[1]) in BothWays(r);
      forall i | 0 < i < |rest| ensures (rest[i - 1], rest[i]) in BothWays(r) {
        assert (p[i], p[i + 1]) in BothWays(r);
      }
      assert PathFrom(BothWays(r), rest, p[1], y);
    }
  }

  lemma TellingRefuses(r: set<Equality>, e: Equality)
    requires !Forces(r, e)
    ensures !ValuesMeet(e, Telling(r, e.0))
  {
    if Mentioned(r, e.0) {
      ReachesSelf(BothWays(r), e.0);
      if SameClass(r, e.0, e.1) {
        SameClassIsForced(r, e.0, e.1);
      }
    }
  }

  // ----- the exact condition -----

  lemma LocalPartsEmpty(bs: seq<Binding>, intent: Intent, routing: Routing)
    ensures LocalParts(bs, intent, routing) == [] <==> bs == []
  {
  }

  /** Values that meet what the query states but not what the steps impose, or the reverse. */
  lemma DisagreementTells(intent: Intent, routing: Routing, val: Assignment)
    requires PlainQuery(intent, routing) && intent.filters == []
    requires forall j <- ForeignJoins(intent, routing) :: val(Imposed(j, intent).1) != Null
    requires MeetsStated(intent, val) != (LocalsKeep(intent, routing) && MeetsImposed(intent, routing, val))
    ensures var data := SingleRows(RefsOf(intent), val);
            UniqueLookups(intent, routing, data) && !Preserved(intent, routing, data)
  {
    var data := SingleRows(RefsOf(intent), val);
    SingleLookups(intent, routing, val);
    QueryOfOne(intent, routing, val);
    LocalPartsEmpty(Run(intent, data), intent, routing);
    if LocalsKeep(intent, routing) {
      StepsOfOne(intent, routing, val);
    } else {
      LeavingStepsGiveNothing(data.rows(intent.table), intent, routing, data);
    }
  }

  lemma LookedUpHasValue(intent: Intent, routing: Routing, r: set<Equality>, x: ColRef, j: Join)
    requires j in ForeignJoins(intent, routing) && (Mentioned(r, x) || x != Imposed(j, intent).1)
    ensures Telling(r, x)(Imposed(j, intent).1) != Null
  {
  }

  /** An imposed equality that is not forced by what the query states. */
  lemma ImposedTooMuch(intent: Intent, routing: Routing, j: Join)
    requires PlainQuery(intent, routing) && intent.filters == []
    requires j in ForeignJoins(intent, routing) && !Forces(AllStated(intent), Imposed(j, intent))
    ensures exists data: Data :: UniqueLookups(intent, routing, data) && !Preserved(intent, routing, data)
  {
    var r, e := AllStated(intent), Imposed(j, intent);
    var val := Telling(r, e.0);
    forall i | i in intent.joins ensures ValuesMeet(Stated(i, intent), val) {
      TellingMeets(r, Stated(i, intent));
    }
    TellingRefuses(r, e);
    InScopeIsDistinct({intent.table}, intent.joins, intent.table);
    forall i | i in ForeignJoins(intent, routing) ensures val(Imposed(i, intent).1) != Null {
      assert i in intent.joins && i.table != intent.table;
      LookedUpHasValue(intent, routing, r, e.0, i);
    }
    assert j in intent.joins && !MeetsImposed(intent, routing, val);
    DisagreementTells(intent, routing, val);
  }

  /** A stated equality that is not forced by what the steps impose. */
  lemma StatedTooMuch(intent: Intent, routing: Routing, j: Join)
    requires PlainQuery(intent, routing) && intent.filters == [] && LocalsKeep(intent, routing)
    requires j in ForeignJoins(intent, routing) && !Forces(AllImposed(intent, routing), Stated(j, intent))
    ensures exists data: Data :: UniqueLookups(intent, routing, data) && !Preserved(intent, routing, data)
  {
    var r, e := AllImposed(intent, routing), Stated(j, intent);
    var val := Telling(r, e.0);
    forall i | i in intent.joins
      ensures ValuesMeet(if IsForeign(i.table, intent, routing) then Imposed(i, intent) else Stated(i, intent), val)
    {
      TellingMeets(r, if IsForeign(i.table, intent, routing) then Imposed(i, intent) else Stated(i, intent));
    }
    TellingRefuses(r, e);
    assert j in intent.joins && !MeetsStated(intent, val);
    DisagreementTells(intent, routing, val);
  }

  /** A join within the source that names another. */
  lemma LeavesItsSource(intent: Intent, routing: Routing)
    requires PlainQuery(intent, routing) && intent.filters == [] && !LocalsKeep(intent, routing)
    ensures exists data: Data :: UniqueLookups(intent, routing, data) && !Preserved(intent, routing, data)
  {
    var val: Assignment := ref => ONE;
    DisagreementTells(intent, routing, val);
  }

  /** The condition is exact: without filters of its own, a query is preserved over all data on
      which its lookups find one value each if and only if its equalities are equivalent. */
  lemma PreservedExactlyWhenEquivalent(intent: Intent, routing: Routing)
    requires PlainQuery(intent, routing) && intent.filters == []
    ensures Equivalent(intent, routing) <==>
            forall data: Data :: UniqueLookups(intent, routing, data) ==> Preserved(intent, routing, data)
  {
    if Equivalent(intent, routing) {
      forall data: Data | UniqueLookups(intent, routing, data) ensures Preserved(intent, routing, data) {
        EachPrimaryRow(data.rows(intent.table), intent, routing, data);
      }
    } else if !LocalsKeep(intent, routing) {
      LeavesItsSource(intent, routing);
    } else {
      var j :| j in intent.joins && IsForeign(j.table, intent, routing) &&
               !(Forces(AllImposed(intent, routing), Stated(j, intent)) && Forces(AllStated(intent), Imposed(j, intent)));
      assert j in ForeignJoins(intent, routing);
      if Forces(AllStated(intent), Imposed(j, intent)) {
        StatedTooMuch(intent, routing, j);
      } else {
        ImposedTooMuch(intent, routing, j);
      }
    }
  }

  // ----- what that means for single joins -----

  /** Each ON names the primary table on its left and the joined one on its right, and joins
      within the source keep to it. */
  predicate Oriented(intent: Intent, routing: Routing) {
    forall j <- intent.joins ::
      if IsForeign(j.table, intent, routing)
      then OperandTable(OnLeft(j), intent.table) == intent.table && OperandTable(OnRight(j), j.table) == j.table
      else KeepsToSource(j, intent, routing)
  }

  lemma StatedIsForced(r: set<Equality>, e: Equality)
    requires e in r
    ensures Forces(r, e)
  {
    assert (e.0, e.1) in BothWays(r);
    ReachesSelf(BothWays(r), e.1);
  }

  /** Joins written that way are always decomposed faithfully. */
  lemma OrientedIsEquivalent(intent: Intent, routing: Routing)
    requires Oriented(intent, routing)
    ensures Equivalent(intent, routing)
  {
    forall j | j in intent.joins && IsForeign(j.table, intent, routing)
      ensures Forces(AllImposed(intent, routing), Stated(j, intent)) && Forces(AllStated(intent), Imposed(j, intent))
    {
      assert Imposed(j, intent) == Stated(j, intent);
      StatedIsForced(AllImposed(intent, routing), Stated(j, intent));
      StatedIsForced(AllStated(intent), Stated(j, intent));
    }
  }

  lemma OnlyMentioned(r: set<Equality>, e: Equality, x: ColRef)
    requires r == {e}
    ensures Mentioned(r, x) <==> x == e.0 || x == e.1
  {
    assert e in r;
    if x == e.0 {
      assert (x, e.1) in BothWays(r);
    }
    if x == e.1 {
      assert (x, e.0) in BothWays(r);
    }
  }

  lemma BackwardsIsForced(r: set<Equality>, e: Equality)
    requires (e.1, e.0) in r
    ensures Forces(r, e)
  {
    assert (e.0, e.1) in BothWays(r);
    ReachesSelf(BothWays(r), e.1);
  }

  /** One join, its ON written the other way round: the joined table on the left, the primary
      one on the right.  It is decomposed faithfully only if the two columns have one name. */
  lemma ReversedNeedsOneName(intent: Intent, routing: Routing, j: Join)
    requires intent.joins == [j] && IsForeign(j.table, intent, routing) && j.table != intent.table
    requires LeftRef(j, intent.table).0 == j.table && RightRef(j).0 == intent.table
    ensures Equivalent(intent, routing) <==> ColumnOf(OnLeft(j)) == ColumnOf(OnRight(j))
  {
    var stated, imposed := Stated(j, intent), Imposed(j, intent);
    assert j in intent.joins && forall i <- intent.joins :: i == j;
    assert AllStated(intent) == {stated} && AllImposed(intent, routing) == {imposed};
    if ColumnOf(OnLeft(j)) == ColumnOf(OnRight(j)) {
      assert (stated.1, stated.0) == imposed;
      BackwardsIsForced(AllImposed(intent, routing), stated);
      BackwardsIsForced(AllStated(intent), imposed);
    } else {
      OnlyMentioned(AllStated(intent), stated, imposed.0);
    }
  }

  /** The input: c = {i: 1} and o = {i: 9, k: 1}, joined on "o.k" = "c.i".  The lookup finds one
      value, 9, and the steps give no row where the query gives one. */
  lemma ReversedOnLosesRows(intent: Intent, routing: Routing, data: Data)
    requires intent == Intent("c", [], [Join("o", Inner, Some(On("o.k", "c.i")), None)], [])
    requires IsForeign("o", intent, routing)
    requires data.rows("c") == [map["i" := ONE]] && data.rows("o") == [map["i" := Num(9.0), "k" := ONE]]
    ensures FoundBy(intent.joins[0], intent, data) == [Num(9.0)]
    ensures |Run(intent, data)| == 1 && Run(Resolved(intent, routing, data), data) == []
  {
    var j := intent.joins[0];
    SplitAtDot("o", "k");
    SplitAtDot("c", "i");
    assert "o" + "." + "k" == "o.k" && "c" + "." + "i" == "c.i";
    DotFacts("k");
    DotFacts("i");
    assert LeftRef(j, "c") == ("o", "k") && RightRef(j) == ("c", "i");
    ReversedRows(j, intent, routing, data);
  }

  lemma OnlyForeign(intent: Intent, routing: Routing, j: Join)
    requires intent.joins == [j] && IsForeign(j.table, intent, routing)
    ensures ForeignJoins(intent, routing) == [j] && LocalJoins(intent, routing) == []
  {
    assert [j][0] == j && [j][1..] == [];
    assert ForeignOf([], intent, routing) == [] && LocalOf([], intent, routing) == [];
    assert ForeignOf([j], intent, routing) == [j] + ForeignOf([], intent, routing);
    assert LocalOf([j], intent, routing) == LocalOf([], intent, routing);
  }

  lemma ReversedRows(j: Join, intent: Intent, routing: Routing, data: Data)
    requires intent == Intent("c", [], [j], []) && j.table == "o" && IsForeign("o", intent, routing)
    requires LeftRef(j, "c") == ("o", "k") && RightRef(j) == ("c", "i")
    requires data.rows("c") == [map["i" := ONE]] && data.rows("o") == [map["i" := Num(9.0), "k" := ONE]]
    ensures FoundBy(j, intent, data) == [Num(9.0)]
    ensures |Run(intent, data)| == 1 && Run(Resolved(intent, routing, data), data) == []
  {
    var c, o: Row := map["i" := ONE], map["i" := Num(9.0), "k" := ONE];
    OnlyForeign(intent, routing, j);
    assert [o][1..] == [] && [c][1..] == [] && [j][1..] == [];
    FoundStep(j, [o], intent, data);
    var b: Binding := map["c" := c];
    var both := b["o" := o];
    assert OnHolds(j, "c", both);
    assert Extend(b, [j], [], [], "c", data) == [];
    assert Bindings(both, [], [], "c", data) == [both];
    assert Bindings(b, [j], [], "c", data) == [both];
    assert RunOver([], intent, data) == [];
    var link, steps := Link(j, intent, data), Resolved(intent, routing, data);
    assert Links([j], intent, data) == [link] && [] + [link] == [link];
    assert steps.joins == [] && steps.filters == [link];
    assert link in [link] && !Holds(link, "c", b, data);
    assert Bindings(b, [], [link], "c", data) == [];
    assert RunOver([], steps, data) == [];
  }
}
