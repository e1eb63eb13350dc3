/** What a query with inner joins asks for: nested loops over the rows of its tables, and the
    same as one choice among all ways to take a row of each table. */
module JoinRuns {
  import opened Common
  import opened DataValues
  import opened CrossDbDecomposer

  // ----- what a query asks for -----

  /** The rows of every table, and what a filter other than IN over a list says of a row. */
  datatype Data = Data(rows: string -> seq<Row>, holds: (Condition, Row) -> bool)

  /** One row of each table joined so far. */
  type Binding = map<string, Row>

  predicate SqlEqual(a: Value, b: Value) {
    a != Null && b != Null && a == b
  }

  function RowOf(b: Binding, table: string): Row {
    if table in b then b[table] else map[]
  }

  /** The table an ON operand names; an unprefixed one belongs to the default table. */
  function OperandTable(operand: string, default: string): string {
    if AfterFirstDot(operand).Some? then BeforeDot(operand) else default
  }

  /** A table and a column of it. */
  type ColRef = (string, string)

  function LeftRef(j: Join, primary: string): ColRef {
    (OperandTable(OnLeft(j), primary), ColumnOf(OnLeft(j)))
  }

  function RightRef(j: Join): ColRef {
    (OperandTable(OnRight(j), j.table), ColumnOf(OnRight(j)))
  }

  function At(b: Binding, ref: ColRef): Value {
    Cell(RowOf(b, ref.0), ref.1)
  }

  predicate OnHolds(j: Join, primary: string, b: Binding) {
    SqlEqual(At(b, LeftRef(j, primary)), At(b, RightRef(j)))
  }

  predicate HoldsAt(f: Condition, row: Row, data: Data) {
    if f.operator == "IN" && f.value.Arr? then Cell(row, f.field) != Null && Cell(row, f.field) in f.value.items
    else data.holds(f, row)
  }

  /** An unprefixed filter is about the primary table. */
  function FilterTable(f: Condition, primary: string): string {
    if f.table == "" then primary else f.table
  }

  predicate Holds(f: Condition, primary: string, b: Binding, data: Data) {
    HoldsAt(f, RowOf(b, FilterTable(f, primary)), data)
  }

  predicate AllHold(fs: seq<Condition>, primary: string, b: Binding, data: Data) {
    forall f <- fs :: Holds(f, primary, b, data)
  }

  /** Inner joins as nested loops, in order, with the filters at the innermost place. */
  function Bindings(b: Binding, joins: seq<Join>, fs: seq<Condition>, primary: string, data: Data): seq<Binding>
    decreases |joins|, 1, 0
  {
    if joins == [] then if AllHold(fs, primary, b, data) then [b] else []
    else Extend(b, joins, data.rows(joins[0].table), fs, primary, data)
  }

  function Extend(
    b: Binding, joins: seq<Join>, rows: seq<Row>, fs: seq<Condition>, primary: string, data: Data): seq<Binding>
    requires joins != []
    decreases |joins|, 0, |rows|
  {
    if rows == [] then []
    else
      var b1 := b[joins[0].table := rows[0]];
      (if OnHolds(joins[0], primary, b1) then Bindings(b1, joins[1..], fs, primary, data) else [])
      + Extend(b, joins, rows[1..], fs, primary, data)
  }

  function RunOver(rows: seq<Row>, intent: Intent, data: Data): seq<Binding> {
    if rows == [] then []
    else
      var first := Bindings(map[intent.table := rows[0]], intent.joins, intent.filters, intent.table, data);
      first + RunOver(rows[1..], intent, data)
  }

  function Run(intent: Intent, data: Data): seq<Binding> {
    RunOver(data.rows(intent.table), intent, data)
  }

  /** The rows handed downstream: the selected columns. */
  function Selected(b: Binding, columns: seq<Column>): Row {
    if columns == [] then map[]
    else Selected(b, columns[1..])[columns[0].field := Cell(RowOf(b, columns[0].table), columns[0].field)]
  }

  function SelectedAll(bs: seq<Binding>, columns: seq<Column>): seq<Row> {
    if bs == [] then [] else [Selected(bs[0], columns)] + SelectedAll(bs[1..], columns)
  }

  /** Leaving out the tables of other sources. */
  function LocalPart(b: Binding, intent: Intent, routing: Routing): Binding {
    map t | t in b && !IsForeign(t, intent, routing) :: b[t]
  }

  function LocalParts(bs: seq<Binding>, intent: Intent, routing: Routing): seq<Binding> {
    if bs == [] then [] else [LocalPart(bs[0], intent, routing)] + LocalParts(bs[1..], intent, routing)
  }

  lemma {:induction false} LocalPartsConcat(a: seq<Binding>, b: seq<Binding>, intent: Intent, routing: Routing)
    ensures LocalParts(a + b, intent, routing) == LocalParts(a, intent, routing) + LocalParts(b, intent, routing)
  {
    if a == [] {
      assert a + b == b;
    } else {
      LocalPartsConcat(a[1..], b, intent, routing);
      assert (a + b)[1..] == a[1..] + b;
    }
  }

  // ----- one choice among all bindings -----

  /** Every way to extend a binding by a row of each joined table. */
  function Leaves(b: Binding, joins: seq<Join>, data: Data): seq<Binding>
    decreases |joins|, 1, 0
  {
    if joins == [] then [b] else LeavesOver(b, joins, data.rows(joins[0].table), data)
  }

  function LeavesOver(b: Binding, joins: seq<Join>, rows: seq<Row>, data: Data): seq<Binding>
    requires joins != []
    decreases |joins|, 0, |rows|
  {
    if rows == [] then []
    else Leaves(b[joins[0].table := rows[0]], joins[1..], data) + LeavesOver(b, joins, rows[1..], data)
  }

  predicate AllOn(joins: seq<Join>, primary: string, b: Binding) {
    forall j <- joins :: OnHolds(j, primary, b)
  }

  /** The ON conditions and the filters at once. */
  function Test(joins: seq<Join>, fs: seq<Condition>, primary: string, data: Data): Binding -> bool {
    b => AllOn(joins, primary, b) && AllHold(fs, primary, b, data)
  }

  ghost predicate DistinctJoins(joins: seq<Join>) {
    forall i, k :: 0 <= i < k < |joins| ==> joins[i].table != joins[k].table
  }

  function TablesOf(joins: seq<Join>): (r: set<string>)
    ensures forall t :: t in r <==> exists j <- joins :: j.table == t
  {
    set j | j in joins :: j.table
  }

  /** No join rebinds a table, and each ON names tables bound by then. */
  ghost predicate InScope(bound: set<string>, joins: seq<Join>, primary: string)
    decreases |joins|
  {
    joins != [] ==>
      var j := joins[0];
      && j.table !in bound
      && LeftRef(j, primary).0 in bound + {j.table} && RightRef(j).0 in bound + {j.table}
      && InScope(bound + {j.table}, joins[1..], primary)
  }

  lemma {:induction false} InScopeIsDistinct(bound: set<string>, joins: seq<Join>, primary: string)
    requires InScope(bound, joins, primary)
    ensures DistinctJoins(joins) && bound !! TablesOf(joins)
    ensures forall j <- joins :: LeftRef(j, primary).0 in bound + TablesOf(joins)
    ensures forall j <- joins :: RightRef(j).0 in bound + TablesOf(joins)
    decreases |joins|
  {
    if joins != [] {
      var rest := joins[1..];
      InScopeIsDistinct(bound + {joins[0].table}, rest, primary);
      assert joins == [joins[0]] + rest;
      assert TablesOf(joins) == {joins[0].table} + TablesOf(rest);
      forall i | 0 <= i < |rest| ensures rest[i].table != joins[0].table {
        assert rest[i] in rest;
      }
    }
  }

  // ----- filtering -----

  lemma {:induction false} FilterConcat<T(!new)>(a: seq<T>, b: seq<T>, p: T -> bool)
    ensures Filter(a + b, p) == Filter(a, p) + Filter(b, p)
  {
    if a == [] {
      assert a + b == b;
    } else {
      FilterConcat(a[1..], b, p);
      assert (a + b)[0] == a[0] && (a + b)[1..] == a[1..] + b;
    }
  }

  lemma {:induction false} FilterSame<T(!new)>(s: seq<T>, p: T -> bool, q: T -> bool)
    requires forall x <- s :: p(x) == q(x)
    ensures Filter(s, p) == Filter(s, q)
  {
    if s != [] {
      assert s[0] in s && forall x <- s[1..] :: x in s;
      FilterSame(s[1..], p, q);
    }
  }

  lemma {:induction false} FilterNone<T(!new)>(s: seq<T>, p: T -> bool)
    requires forall x <- s :: !p(x)
    ensures Filter(s, p) == []
  {
    if s != [] {
      assert s[0] in s && forall x <- s[1..] :: x in s;
      FilterNone(s[1..], p);
    }
  }

  // ----- what a leaf holds -----

  /** A leaf extends the binding by a row of each joined table. */
  ghost predicate Extends(leaf: Binding, b: Binding, joins: seq<Join>, data: Data) {
    && leaf.Keys == b.Keys + TablesOf(joins)
    && (forall t <- b :: t !in TablesOf(joins) ==> leaf[t] == b[t])
    && (forall j <- joins :: leaf[j.table] in data.rows(j.table))
  }

  lemma {:induction false} LeavesExtend(b: Binding, joins: seq<Join>, data: Data)
    requires DistinctJoins(joins)
    ensures forall leaf <- Leaves(b, joins, data) :: Extends(leaf, b, joins, data)
    decreases |joins|, 1, 0
  {
    if joins != [] {
      LeavesOverExtend(b, joins, data.rows(joins[0].table), data);
    }
  }

  lemma {:induction false} LeavesOverExtend(b: Binding, joins: seq<Join>, rows: seq<Row>, data: Data)
    requires joins != [] && DistinctJoins(joins) && forall r <- rows :: r in data.rows(joins[0].table)
    ensures forall leaf <- LeavesOver(b, joins, rows, data) :: Extends(leaf, b, joins, data)
    decreases |joins|, 0, |rows|
  {
    if rows != [] {
      var b1 := b[joins[0].table := rows[0]];
      LeavesExtend(b1, joins[1..], data);
      assert rows[0] in rows && forall r <- rows[1..] :: r in rows;
      LeavesOverExtend(b, joins, rows[1..], data);
      forall leaf | leaf in Leaves(b1, joins[1..], data) ensures Extends(leaf, b, joins, data) {
        ExtendsFromStep(leaf, b, joins, rows[0], data);
      }
    }
  }

  lemma ExtendsFromStep(leaf: Binding, b: Binding, joins: seq<Join>, row: Row, data: Data)
    requires joins != [] && DistinctJoins(joins) && row in data.rows(joins[0].table)
    requires Extends(leaf, b[joins[0].table := row], joins[1..], data)
    ensures Extends(leaf, b, joins, data)
  {
    assert joins == [joins[0]] + joins[1..];
    assert TablesOf(joins) == {joins[0].table} + TablesOf(joins[1..]);
    assert joins[0].table !in TablesOf(joins[1..]);
  }

  // ----- nested loops choose among the leaves -----

  /** An ON whose tables are bound says the same at the leaf as at its join. */
  lemma OnAtLeaf(j: Join, leaf: Binding, b: Binding, rest: seq<Join>, primary: string, data: Data)
    requires Extends(leaf, b, rest, data) && forall t <- TablesOf(rest) :: t !in b
    requires LeftRef(j, primary).0 in b && RightRef(j).0 in b
    ensures OnHolds(j, primary, leaf) == OnHolds(j, primary, b)
  {
  }

  /** The nested loops give exactly the leaves that pass every ON and every filter, in order. */
  lemma {:induction false} BindingsAreLeaves(b: Binding, joins: seq<Join>, fs: seq<Condition>, primary: string, data: Data)
    requires InScope(b.Keys, joins, primary)
    ensures Bindings(b, joins, fs, primary, data) == Filter(Leaves(b, joins, data), Test(joins, fs, primary, data))
    decreases |joins|, 1, 0
  {
    if joins != [] {
      ExtendIsLeaves(b, joins, data.rows(joins[0].table), fs, primary, data);
    }
  }

  lemma {:induction false} ExtendIsLeaves(
    b: Binding, joins: seq<Join>, rows: seq<Row>, fs: seq<Condition>, primary: string, data: Data)
    requires joins != [] && InScope(b.Keys, joins, primary)
    ensures Extend(b, joins, rows, fs, primary, data)
         == Filter(LeavesOver(b, joins, rows, data), Test(joins, fs, primary, data))
    decreases |joins|, 0, |rows|
  {
    if rows != [] {
      var b1 := b[joins[0].table := rows[0]];
      assert b1.Keys == b.Keys + {joins[0].table};
      BindingsAreLeaves(b1, joins[1..], fs, primary, data);
      OneRowOfLeaves(b1, joins, fs, primary, data);
      ExtendIsLeaves(b, joins, rows[1..], fs, primary, data);
      FilterConcat(Leaves(b1, joins[1..], data), LeavesOver(b, joins, rows[1..], data), Test(joins, fs, primary, data));
    }
  }

  lemma OneRowOfLeaves(b1: Binding, joins: seq<Join>, fs: seq<Condition>, primary: string, data: Data)
    requires joins != [] && InScope(b1.Keys, joins[1..], primary)
    requires LeftRef(joins[0], primary).0 in b1 && RightRef(joins[0]).0 in b1
    ensures Filter(Leaves(b1, joins[1..], data), Test(joins, fs, primary, data))
         == if OnHolds(joins[0], primary, b1) then Filter(Leaves(b1, joins[1..], data), Test(joins[1..], fs, primary, data))
            else []
  {
    var leaves, rest := Leaves(b1, joins[1..], data), joins[1..];
    InScopeIsDistinct(b1.Keys, rest, primary);
    LeavesExtend(b1, rest, data);
    assert joins == [joins[0]] + rest;
    forall leaf | leaf in leaves
      ensures AllOn(joins, primary, leaf) <==> OnHolds(joins[0], primary, b1) && AllOn(rest, primary, leaf)
    {
      OnAtLeaf(joins[0], leaf, b1, rest, primary, data);
    }
    if OnHolds(joins[0], primary, b1) {
      FilterSame(leaves, Test(joins, fs, primary, data), Test(rest, fs, primary, data));
    } else {
      FilterNone(leaves, Test(joins, fs, primary, data));
    }
  }
}
