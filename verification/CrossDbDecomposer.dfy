/** Splitting a query whose joins cross data sources into one lookup step per foreign
    table and a primary step that filters on what the lookups return. */
module CrossDbDecomposer {
  import opened Common
  import opened DataValues

  datatype JoinKind = Inner | Left | Right | Full

  datatype On = On(left: string, right: string)

  /** What the decomposer writes onto a foreign join. */
  datatype Tag = Tag(lookupId: string, foreignColumn: string, linkColumn: string)

  datatype Join = Join(table: string, kind: JoinKind, on: Option<On>, tag: Option<Tag>)

  /** An absent table or valueRef is "". */
  datatype Condition = Condition(field: string, table: string, operator: string, value: Value, valueRef: string)

  datatype Column = Column(field: string, table: string)

  datatype Intent = Intent(table: string, columns: seq<Column>, joins: seq<Join>, filters: seq<Condition>)

  datatype Step = Step(nodeId: string, datasource: string, intent: Intent, dependsOn: seq<string>)

  datatype Decomposed = Decomposed(isCrossDb: bool, steps: seq<Step>)

  type Routing = map<string, string>

  function DataSource(table: string, routing: Routing): string {
    if table in routing then routing[table] else "default"
  }

  predicate IsForeign(table: string, intent: Intent, routing: Routing) {
    DataSource(table, routing) != DataSource(intent.table, routing)
  }

  // ----- dotted names -----

  function BeforeDot(s: string): string {
    if s == "" || s[0] == '.' then "" else [s[0]] + BeforeDot(s[1..])
  }

  /** What follows the first dot, if there is one. */
  function AfterFirstDot(s: string): Option<string> {
    if s == "" then None else if s[0] == '.' then Some(s[1..]) else AfterFirstDot(s[1..])
  }

  /** The second of the parts between dots, if there is one. */
  function SecondPart(s: string): Option<string> {
    match AfterFirstDot(s)
    case None => None
    case Some(rest) => Some(BeforeDot(rest))
  }

  function ColumnOf(operand: string): string {
    if SecondPart(operand).Some? then SecondPart(operand).value else operand
  }

  lemma {:induction false} DotFacts(s: string)
    ensures '.' !in BeforeDot(s)
    ensures AfterFirstDot(s).Some? <==> '.' in s
    ensures BeforeDot(s) == s <==> '.' !in s
  {
    if s != "" && s[0] != '.' {
      DotFacts(s[1..]);
      assert s == [s[0]] + s[1..];
      assert BeforeDot(s)[1..] == BeforeDot(s[1..]);
      assert BeforeDot(s) == s <==> BeforeDot(s[1..]) == s[1..];
    }
  }

  lemma {:induction false} SplitAtDot(a: string, b: string)
    requires '.' !in a
    ensures BeforeDot(a + "." + b) == a && AfterFirstDot(a + "." + b) == Some(b)
  {
    var s := a + "." + b;
    if a == "" {
      assert s == "." + b;
      assert s[1..] == b;
    } else {
      SplitAtDot(a[1..], b);
      assert s[1..] == a[1..] + "." + b;
    }
  }

  lemma ColumnHasNoDot(operand: string)
    ensures '.' !in ColumnOf(operand)
  {
    DotFacts(operand);
    if SecondPart(operand).Some? {
      DotFacts(AfterFirstDot(operand).value);
    }
  }

  // ----- references to a lookup's rows -----

  function RefTo(lookupId: string, column: string): string {
    "$" + lookupId + "." + column
  }

  /** `ref.replace('$', '')`: the first dollar goes. */
  function DropDollar(s: string): string {
    if s == "" then "" else if s[0] == '$' then s[1..] else [s[0]] + DropDollar(s[1..])
  }

  /** The node and the column a reference names; an absent or empty column is "id". */
  function ParseRef(ref: string): (string, string) {
    var s := DropDollar(ref);
    var column := SecondPart(s);
    (BeforeDot(s), if column.Some? && column.value != "" then column.value else "id")
  }

  lemma {:induction false} FirstDotDecides(a: string, b: string)
    requires '.' in a
    ensures BeforeDot(a + b) == BeforeDot(a)
  {
    if a[0] != '.' {
      assert '.' in a[1..];
      FirstDotDecides(a[1..], b);
      assert (a + b)[1..] == a[1..] + b;
    }
  }

  /** A reference reads back as it was written exactly when the lookup's id has no dot and
      the column is not empty; a table name with a dot is looked for under a wrong name. */
  lemma RefRoundTrips(lookupId: string, column: string)
    requires '.' !in column
    ensures ParseRef(RefTo(lookupId, column)) == (lookupId, column) <==> '.' !in lookupId && column != ""
  {
    var s := lookupId + "." + column;
    assert RefTo(lookupId, column) == "$" + s;
    assert DropDollar("$" + s) == s;
    DotFacts(column);
    if '.' in lookupId {
      FirstDotDecides(lookupId, "." + column);
      assert lookupId + ("." + column) == s;
      DotFacts(lookupId);
    } else {
      SplitAtDot(lookupId, column);
    }
  }

  // ----- decomposition -----

  function OnLeft(j: Join): string {
    if j.on.Some? then j.on.value.left else ""
  }

  function OnRight(j: Join): string {
    if j.on.Some? then j.on.value.right else ""
  }

  function LookupId(table: string): string {
    "lookup_" + table
  }

  function TagOf(j: Join): Tag {
    Tag(LookupId(j.table), ColumnOf(OnRight(j)), ColumnOf(OnLeft(j)))
  }

  function LocalOf(joins: seq<Join>, intent: Intent, routing: Routing): seq<Join> {
    Filter(joins, (j: Join) => !IsForeign(j.table, intent, routing))
  }

  function LocalJoins(intent: Intent, routing: Routing): seq<Join> {
    LocalOf(intent.joins, intent, routing)
  }

  function ForeignOf(joins: seq<Join>, intent: Intent, routing: Routing): seq<Join> {
    Filter(joins, (j: Join) => IsForeign(j.table, intent, routing))
  }

  function ForeignJoins(intent: Intent, routing: Routing): seq<Join> {
    ForeignOf(intent.joins, intent, routing)
  }

  function ForeignFilters(intent: Intent, table: string): seq<Condition> {
    Filter(intent.filters, (f: Condition) => f.table == table)
  }

  function LocalFilters(intent: Intent, routing: Routing): seq<Condition> {
    Filter(intent.filters, (f: Condition) => f.table == "" || !IsForeign(f.table, intent, routing))
  }

  function LookupStep(j: Join, intent: Intent, routing: Routing): Step {
    Step(LookupId(j.table), DataSource(j.table, routing),
         Intent(j.table, [Column(TagOf(j).foreignColumn, j.table)], [], ForeignFilters(intent, j.table)), [])
  }

  /** The primary step's filter on what a lookup returns. */
  function LinkFilter(j: Join, intent: Intent): Condition {
    Condition(TagOf(j).linkColumn, intent.table, "IN", Null, RefTo(TagOf(j).lookupId, TagOf(j).foreignColumn))
  }

  function LookupSteps(js: seq<Join>, intent: Intent, routing: Routing): seq<Step> {
    seq(|js|, i requires 0 <= i < |js| => LookupStep(js[i], intent, routing))
  }

  function LinkFilters(js: seq<Join>, intent: Intent): seq<Condition> {
    seq(|js|, i requires 0 <= i < |js| => LinkFilter(js[i], intent))
  }

  function PrimaryStep(nodeId: string, intent: Intent, routing: Routing): Step {
    var foreign := ForeignJoins(intent, routing);
    Step(nodeId, DataSource(intent.table, routing),
         intent.(joins := LocalJoins(intent, routing),
                 filters := LocalFilters(intent, routing) + LinkFilters(foreign, intent)),
         seq(|foreign|, i requires 0 <= i < |foreign| => LookupId(foreign[i].table)))
  }

  function DecomposedSteps(nodeId: string, intent: Intent, routing: Routing): seq<Step> {
    LookupSteps(ForeignJoins(intent, routing), intent, routing) + [PrimaryStep(nodeId, intent, routing)]
  }

  predicate DetectCrossDbJoins(intent: Intent, routing: Routing) {
    exists j :: j in intent.joins && IsForeign(j.table, intent, routing)
  }

  /** The lookup steps in join order; each foreign join is tagged on the way. */
  method BuildLookups(foreign: seq<Join>, intent: Intent, routing: Routing)
    returns (steps: seq<Step>, lookupIds: seq<string>, tagged: seq<Join>)
    ensures steps == LookupSteps(foreign, intent, routing)
    ensures lookupIds == seq(|foreign|, i requires 0 <= i < |foreign| => LookupId(foreign[i].table))
    ensures |tagged| == |foreign| && forall k :: 0 <= k < |foreign| ==> tagged[k].tag == Some(TagOf(foreign[k]))
  {
    steps, lookupIds, tagged := [], [], foreign;
    for i := 0 to |foreign|
      invariant |tagged| == |foreign| && |steps| == |lookupIds| == i
      invariant forall k :: i <= k < |foreign| ==> tagged[k] == foreign[k]
      invariant forall k :: 0 <= k < i ==> tagged[k].tag == Some(TagOf(foreign[k]))
      invariant forall k :: 0 <= k < i ==> steps[k] == LookupStep(foreign[k], intent, routing)
      invariant forall k :: 0 <= k < i ==> lookupIds[k] == LookupId(foreign[k].table)
    {
      var join := tagged[i];
      var lookupId := LookupId(join.table);
      var foreignColumn, linkColumn := ColumnOf(OnRight(join)), ColumnOf(OnLeft(join));
      var lookup := Intent(join.table, [Column(foreignColumn, join.table)], [], ForeignFilters(intent, join.table));
      steps := steps + [Step(lookupId, DataSource(join.table, routing), lookup, [])];
      lookupIds := lookupIds + [lookupId];
      tagged := tagged[i := join.(tag := Some(Tag(lookupId, foreignColumn, linkColumn)))];
    }
  }

  /** One filter per tagged join is pushed onto the primary step's own. */
  method PushLinkFilters(local: seq<Condition>, foreign: seq<Join>, tagged: seq<Join>, intent: Intent)
    returns (filters: seq<Condition>)
    requires |tagged| == |foreign| && forall k :: 0 <= k < |foreign| ==> tagged[k].tag == Some(TagOf(foreign[k]))
    ensures filters == local + LinkFilters(foreign, intent)
  {
    filters := local;
    for i := 0 to |tagged|
      invariant filters == local + LinkFilters(foreign, intent)[..i]
    {
      var tag := tagged[i].tag.value;
      filters := filters + [Condition(tag.linkColumn, intent.table, "IN", Null, RefTo(tag.lookupId, tag.foreignColumn))];
      assert LinkFilters(foreign, intent)[..i + 1] == LinkFilters(foreign, intent)[..i] + [LinkFilter(foreign[i], intent)];
    }
  }

  method DecomposeCrossDbQuery(nodeId: string, intent: Intent, routing: Routing) returns (d: Decomposed)
    ensures d.isCrossDb <==> DetectCrossDbJoins(intent, routing)
    ensures !d.isCrossDb ==> d.steps == []
    ensures d.isCrossDb ==> d.steps == DecomposedSteps(nodeId, intent, routing)
  {
    var foreign := ForeignJoins(intent, routing);
    if foreign == [] {
      assert forall j <- intent.joins :: j !in foreign;
      return Decomposed(false, []);
    }
    assert foreign[0] in foreign;
    var steps, lookupIds, tagged := BuildLookups(foreign, intent, routing);
    var filters := PushLinkFilters(LocalFilters(intent, routing), foreign, tagged, intent);
    steps := steps + [Step(nodeId, DataSource(intent.table, routing),
                           intent.(joins := LocalJoins(intent, routing), filters := filters), lookupIds)];
    return Decomposed(true, steps);
  }

  // ----- every filter goes somewhere -----

  ghost predicate NamesForeignJoin(f: Condition, intent: Intent, routing: Routing) {
    exists j :: j in ForeignJoins(intent, routing) && j.table == f.table
  }

  ghost predicate Placed(f: Condition, intent: Intent, routing: Routing) {
    f.table == "" || !IsForeign(f.table, intent, routing) || NamesForeignJoin(f, intent, routing)
  }

  /** The positions of the steps that carry a filter. */
  ghost function Carriers(f: Condition, steps: seq<Step>): set<nat> {
    set i: nat | i < |steps| && f in steps[i].intent.filters
  }

  ghost predicate DistinctTables(js: seq<Join>) {
    forall i, j :: 0 <= i < j < |js| ==> js[i].table != js[j].table
  }

  lemma PrimaryCarries(f: Condition, nodeId: string, intent: Intent, routing: Routing)
    requires f in intent.filters && f.valueRef == ""
    ensures f in PrimaryStep(nodeId, intent, routing).intent.filters
       <==> f.table == "" || !IsForeign(f.table, intent, routing)
  {
    var links := LinkFilters(ForeignJoins(intent, routing), intent);
    assert forall g <- links :: g.valueRef != "";
    assert f in LocalFilters(intent, routing) + links <==> f in LocalFilters(intent, routing) || f in links;
  }

  lemma LookupsCarry(f: Condition, i: nat, nodeId: string, intent: Intent, routing: Routing)
    requires f in intent.filters && forall j <- intent.joins :: j.table != ""
    requires i < |ForeignJoins(intent, routing)|
    ensures f in DecomposedSteps(nodeId, intent, routing)[i].intent.filters
       <==> f.table == ForeignJoins(intent, routing)[i].table
    ensures ForeignJoins(intent, routing)[i].table != ""
    ensures IsForeign(ForeignJoins(intent, routing)[i].table, intent, routing)
  {
    var j := ForeignJoins(intent, routing)[i];
    assert j in ForeignJoins(intent, routing);
    assert DecomposedSteps(nodeId, intent, routing)[i] == LookupStep(j, intent, routing);
  }

  /** The carriers of a filter among steps of which step i < n carries the filters of
      tables[i] and step n carries it or not. */
  lemma CountCarriers(f: Condition, steps: seq<Step>, tables: seq<string>, local: bool)
    requires |steps| == |tables| + 1 && NoDup(tables)
    requires forall i :: 0 <= i < |tables| ==> (f in steps[i].intent.filters <==> f.table == tables[i])
    requires f in steps[|tables|].intent.filters <==> local
    requires local ==> f.table !in tables
    ensures |Carriers(f, steps)| == if local || f.table in tables then 1 else 0
  {
    if local {
      assert Carriers(f, steps) == {|tables|};
    } else if f.table in tables {
      var i :| 0 <= i < |tables| && tables[i] == f.table;
      assert Carriers(f, steps) == {i};
    } else {
      assert Carriers(f, steps) == {};
    }
  }

  /** With pairwise distinct foreign tables each filter goes to exactly one step, unless it
      names a table of another source that is not joined: then it is lost. */
  lemma EachFilterGoesToOneStep(f: Condition, nodeId: string, intent: Intent, routing: Routing)
    requires f in intent.filters && f.valueRef == "" && forall j <- intent.joins :: j.table != ""
    requires DistinctTables(ForeignJoins(intent, routing))
    ensures |Carriers(f, DecomposedSteps(nodeId, intent, routing))| == if Placed(f, intent, routing) then 1 else 0
  {
    var foreign := ForeignJoins(intent, routing);
    var tables := seq(|foreign|, i requires 0 <= i < |foreign| => foreign[i].table);
    var local := f.table == "" || !IsForeign(f.table, intent, routing);
    forall i | 0 <= i < |foreign|
      ensures f in DecomposedSteps(nodeId, intent, routing)[i].intent.filters <==> f.table == tables[i]
      ensures tables[i] != "" && IsForeign(tables[i], intent, routing)
    {
      LookupsCarry(f, i, nodeId, intent, routing);
    }
    PrimaryCarries(f, nodeId, intent, routing);
    TablesName(f, tables, intent, routing);
    CountCarriers(f, DecomposedSteps(nodeId, intent, routing), tables, local);
  }

  lemma TablesName(f: Condition, tables: seq<string>, intent: Intent, routing: Routing)
    requires |tables| == |ForeignJoins(intent, routing)|
    requires forall i :: 0 <= i < |tables| ==> tables[i] == ForeignJoins(intent, routing)[i].table
    ensures f.table in tables <==> NamesForeignJoin(f, intent, routing)
  {
    var foreign := ForeignJoins(intent, routing);
    if NamesForeignJoin(f, intent, routing) {
      var j :| j in foreign && j.table == f.table;
      var i :| 0 <= i < |foreign| && foreign[i] == j;
      assert tables[i] == f.table;
    }
    if f.table in tables {
      var i :| 0 <= i < |tables| && tables[i] == f.table;
      assert foreign[i] in foreign && foreign[i].table == f.table;
    }
  }
}
