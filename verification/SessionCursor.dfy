/** The cursor kept after a query, and the WHERE clause a later statement rebuilds from it. */
module SessionCursor {
  import opened Common
  import opened DataValues

  datatype CursorFilter = CursorFilter(field: string, operator: string, value: Value, caseInsensitive: bool)

  /** The clause texts, with the numbers of their placeholders. */
  datatype Clause =
    | Compare(op: string, field: string, index: int)
    | LowerEquals(field: string, index: int)
    | OneOf(field: string, indices: seq<int>)
    | NoneOf(field: string, indices: seq<int>)
    | IsNullClause(field: string)
    | IsNotNullClause(field: string)
    | BetweenClause(field: string, low: int, high: int)
    | ILikeClause(field: string, index: int)
    | AnyClause(field: string, index: int)

  datatype CursorError = NoClauses | NothingToFilterBy | MalformedValue(field: string)

  datatype Cursor = Cursor(primaryKey: string, ids: Option<seq<Value>>, sourceFilter: Option<seq<CursorFilter>>, rowCount: nat)

  datatype Where = Where(clauses: seq<Clause>, params: seq<Value>, isBulk: bool)

  const CURSOR_ID_LIMIT := 50

  /** The operators passed through as they are. */
  predicate IsComparison(op: string) {
    op == ">" || op == "<" || op == ">=" || op == "<=" || op == "!="
  }

  predicate Known(f: CursorFilter) {
    || IsComparison(f.operator)
    || f.operator == "=" || f.operator == "IN" || f.operator == "NOT IN"
    || f.operator == "IS NULL" || f.operator == "IS NOT NULL"
    || f.operator == "BETWEEN" || f.operator == "LIKE"
  }

  /** A list operator needs an array; the bounds of BETWEEN cannot be read off null. */
  predicate Malformed(f: CursorFilter) {
    ((f.operator == "IN" || f.operator == "NOT IN") && !f.value.Arr?) || (f.operator == "BETWEEN" && f.value == Null)
  }

  /** `value[i]`, an absent element being bound as null. */
  function Element(v: Value, i: nat): Value {
    match v
    case Arr(items) => if i < |items| then items[i] else Null
    case Str(s) => if i < |s| then Str([s[i]]) else Null
    case Obj(fields) =>
      var key := if i == 0 then "0" else "1";
      if key in fields then fields[key] else Null
    case _ => Null
  }

  function Numbers(start: int, n: nat): seq<int> {
    seq(n, i => start + i)
  }

  /** The clause of a known, well-formed filter whose first placeholder is `index`. */
  function ClauseOf(f: CursorFilter, index: int): Clause
    requires Known(f) && !Malformed(f)
  {
    match f.operator
    case "=" =>
      if f.caseInsensitive && f.value.Str? then LowerEquals(f.field, index) else Compare("=", f.field, index)
    case "IN" => OneOf(f.field, Numbers(index, |f.value.items|))
    case "NOT IN" => NoneOf(f.field, Numbers(index, |f.value.items|))
    case "IS NULL" => IsNullClause(f.field)
    case "IS NOT NULL" => IsNotNullClause(f.field)
    case "BETWEEN" => BetweenClause(f.field, index, index + 1)
    case "LIKE" => ILikeClause(f.field, index)
    case _ => Compare(f.operator, f.field, index)
  }

  function ParamsOf(f: CursorFilter): seq<Value>
    requires Known(f) && !Malformed(f)
  {
    match f.operator
    case "IN" => f.value.items
    case "NOT IN" => f.value.items
    case "IS NULL" => []
    case "IS NOT NULL" => []
    case "BETWEEN" => [Element(f.value, 0), Element(f.value, 1)]
    case _ => [f.value]
  }

  /** The clauses and parameters of a filter list, numbered from `index`. */
  function Rebuilt(filters: seq<CursorFilter>, index: int): Result<(seq<Clause>, seq<Value>), CursorError> {
    if filters == [] then Ok(([], []))
    else if !Known(filters[0]) then Rebuilt(filters[1..], index)
    else if Malformed(filters[0]) then Err(MalformedValue(filters[0].field))
    else
      var params := ParamsOf(filters[0]);
      var rest :- Rebuilt(filters[1..], index + |params|);
      Ok(([ClauseOf(filters[0], index)] + rest.0, params + rest.1))
  }

  /** Clauses, parameters and the running placeholder number are updated filter by filter. */
  method RebuildFilters(filters: seq<CursorFilter>, startIndex: int) returns (r: Result<(seq<Clause>, seq<Value>), CursorError>)
    ensures r == Rebuilt(filters, startIndex)
  {
    var clauses: seq<Clause>, params: seq<Value>, paramIndex := [], [], startIndex;
    assert filters[0..] == filters;
    PrependingNothing(Rebuilt(filters, startIndex));
    for i := 0 to |filters|
      invariant paramIndex == startIndex + |params|
      invariant Rebuilt(filters, startIndex)
             == Prepended(clauses, params, Rebuilt(filters[i..], paramIndex))
    {
      var f := filters[i];
      ghost var before := (clauses, params);
      RebuiltStep(filters, i, clauses, params, paramIndex);
      if Malformed(f) {
        return Err(MalformedValue(f.field));
      }
      match f.operator {
        case "=" =>
          if f.caseInsensitive && f.value.Str? {
            clauses := clauses + [LowerEquals(f.field, paramIndex)];
          } else {
            clauses := clauses + [Compare("=", f.field, paramIndex)];
          }
          params, paramIndex := params + [f.value], paramIndex + 1;
        case "IN" =>
          clauses := clauses + [OneOf(f.field, Numbers(paramIndex, |f.value.items|))];
          params, paramIndex := params + f.value.items, paramIndex + |f.value.items|;
        case "NOT IN" =>
          clauses := clauses + [NoneOf(f.field, Numbers(paramIndex, |f.value.items|))];
          params, paramIndex := params + f.value.items, paramIndex + |f.value.items|;
        case "IS NULL" => clauses := clauses + [IsNullClause(f.field)];
        case "IS NOT NULL" => clauses := clauses + [IsNotNullClause(f.field)];
        case "BETWEEN" =>
          clauses := clauses + [BetweenClause(f.field, paramIndex, paramIndex + 1)];
          params, paramIndex := params + [Element(f.value, 0), Element(f.value, 1)], paramIndex + 2;
        case "LIKE" =>
          clauses := clauses + [ILikeClause(f.field, paramIndex)];
          params, paramIndex := params + [f.value], paramIndex + 1;
        case _ =>
          if IsComparison(f.operator) {
            clauses := clauses + [Compare(f.operator, f.field, paramIndex)];
            params, paramIndex := params + [f.value], paramIndex + 1;
          }
      }
      if Known(f) {
        assert clauses == before.0 + [ClauseOf(f, startIndex + |before.1|)] && params == before.1 + ParamsOf(f);
      }
    }
    assert Rebuilt(filters[|filters|..], paramIndex) == Ok(([], []));
    assert clauses + [] == clauses && params + [] == params;
    return Ok((clauses, params));
  }

  ghost function Prepended(
    clauses: seq<Clause>, params: seq<Value>, rest: Result<(seq<Clause>, seq<Value>), CursorError>)
    : Result<(seq<Clause>, seq<Value>), CursorError>
  {
    if rest.Ok? then Ok((clauses + rest.value.0, params + rest.value.1)) else rest
  }

  lemma PrependingNothing(rest: Result<(seq<Clause>, seq<Value>), CursorError>)
    ensures Prepended([], [], rest) == rest
  {
    if rest.Ok? {
      assert [] + rest.value.0 == rest.value.0 && [] + rest.value.1 == rest.value.1;
    }
  }

  lemma RebuiltStep(filters: seq<CursorFilter>, i: nat, clauses: seq<Clause>, params: seq<Value>, index: int)
    requires i < |filters|
    ensures var f := filters[i];
      Prepended(clauses, params, Rebuilt(filters[i..], index))
      == if !Known(f) then Prepended(clauses, params, Rebuilt(filters[i + 1..], index))
         else if Malformed(f) then Err(MalformedValue(f.field))
         else Prepended(clauses + [ClauseOf(f, index)], params + ParamsOf(f),
                Rebuilt(filters[i + 1..], index + |ParamsOf(f)|))
  {
    var f := filters[i];
    assert filters[i..][0] == f && filters[i..][1..] == filters[i + 1..];
    if Known(f) && !Malformed(f) {
      var rest := Rebuilt(filters[i + 1..], index + |ParamsOf(f)|);
      if rest.Ok? {
        assert clauses + ([ClauseOf(f, index)] + rest.value.0) == clauses + [ClauseOf(f, index)] + rest.value.0;
        assert params + (ParamsOf(f) + rest.value.1) == params + ParamsOf(f) + rest.value.1;
      }
    }
  }

  // ----- the whole clause -----

  /** What the builder gives: a page of ids becomes one comparison, a large result its
      stored filters. */
  function Built(cursor: Cursor, startIndex: int): Result<Where, CursorError> {
    if cursor.ids.Some? && cursor.ids.value != [] then
      var ids := cursor.ids.value;
      if |ids| == 1 then Ok(Where([Compare("=", cursor.primaryKey, startIndex)], [ids[0]], false))
      else Ok(Where([AnyClause(cursor.primaryKey, startIndex)], [Arr(ids)], true))
    else if cursor.sourceFilter.Some? then
      var rebuilt :- Rebuilt(cursor.sourceFilter.value, startIndex);
      if rebuilt.0 == [] then Err(NoClauses) else Ok(Where(rebuilt.0, rebuilt.1, true))
    else Err(NothingToFilterBy)
  }

  /** The cursor of a result: the ids of a small one, the filters of a large one. */
  function ExtractCursor(rows: seq<Row>, primaryKey: string, filter: Option<seq<CursorFilter>>): Cursor {
    if |rows| <= CURSOR_ID_LIMIT then Cursor(primaryKey, Some(KeysOf(rows, primaryKey)), None, |rows|)
    else Cursor(primaryKey, None, filter, |rows|)
  }

  function KeysOf(rows: seq<Row>, primaryKey: string): (keys: seq<Value>)
    ensures |keys| == |rows| && forall i :: 0 <= i < |rows| ==> keys[i] == Cell(rows[i], primaryKey)
  {
    if rows == [] then [] else [Cell(rows[0], primaryKey)] + KeysOf(rows[1..], primaryKey)
  }

  // ----- placeholders -----

  function Placeholders(c: Clause): seq<int> {
    match c
    case Compare(_, _, i) => [i]
    case LowerEquals(_, i) => [i]
    case OneOf(_, indices) => indices
    case NoneOf(_, indices) => indices
    case IsNullClause(_) => []
    case IsNotNullClause(_) => []
    case BetweenClause(_, low, high) => [low, high]
    case ILikeClause(_, i) => [i]
    case AnyClause(_, i) => [i]
  }

  function AllPlaceholders(cs: seq<Clause>): seq<int> {
    if cs == [] then [] else Placeholders(cs[0]) + AllPlaceholders(cs[1..])
  }

  lemma ClausePlaceholders(f: CursorFilter, index: int)
    requires Known(f) && !Malformed(f)
    ensures Placeholders(ClauseOf(f, index)) == Numbers(index, |ParamsOf(f)|)
  {
  }

  lemma NumbersInParts(start: int, m: nat, n: nat)
    ensures Numbers(start, m) + Numbers(start + m, n) == Numbers(start, m + n)
  {
  }

  lemma {:induction false} RebuiltPlaceholders(filters: seq<CursorFilter>, index: int)
    requires Rebuilt(filters, index).Ok?
    ensures var r := Rebuilt(filters, index).value; AllPlaceholders(r.0) == Numbers(index, |r.1|)
  {
    if filters != [] {
      var f := filters[0];
      if !Known(f) {
        RebuiltPlaceholders(filters[1..], index);
      } else {
        var params := ParamsOf(f);
        RebuiltPlaceholders(filters[1..], index + |params|);
        var rest := Rebuilt(filters[1..], index + |params|).value;
        ClausePlaceholders(f, index);
        NumbersInParts(index, |params|, |rest.1|);
        assert ([ClauseOf(f, index)] + rest.0)[1..] == rest.0;
      }
    }
  }

  /** The placeholders read left to right are startIndex, startIndex + 1, ..., one for each
      parameter. */
  lemma PlaceholdersAreSequential(cursor: Cursor, startIndex: int)
    requires Built(cursor, startIndex).Ok?
    ensures var w := Built(cursor, startIndex).value;
            w.clauses != [] && AllPlaceholders(w.clauses) == Numbers(startIndex, |w.params|)
  {
    var w := Built(cursor, startIndex).value;
    if cursor.ids.Some? && cursor.ids.value != [] {
      assert w.clauses[1..] == [];
      assert Placeholders(w.clauses[0]) == [startIndex] == Numbers(startIndex, 1);
    } else {
      RebuiltPlaceholders(cursor.sourceFilter.value, startIndex);
    }
  }

  // ----- when the builder throws -----

  lemma {:induction false} RebuiltFailsOnMalformed(filters: seq<CursorFilter>, index: int)
    ensures Rebuilt(filters, index).Err? <==> exists f <- filters :: Malformed(f)
    ensures Rebuilt(filters, index).Err? ==> Rebuilt(filters, index).error.MalformedValue?
    ensures Rebuilt(filters, index).Ok? ==> (Rebuilt(filters, index).value.0 == [] <==> forall f <- filters :: !Known(f))
  {
    if filters != [] {
      var f := filters[0];
      assert filters == [f] + filters[1..];
      RebuiltFailsOnMalformed(filters[1..], if Known(f) && !Malformed(f) then index + |ParamsOf(f)| else index);
      assert f in filters;
      assert forall g :: g in filters <==> g == f || g in filters[1..];
    }
  }

  predicate HasIds(cursor: Cursor) {
    cursor.ids.Some? && cursor.ids.value != []
  }

  /** There are ids, or there is a filter with a known operator and no list or range
      operator without its list. */
  predicate Buildable(cursor: Cursor) {
    || HasIds(cursor)
    || (&& cursor.sourceFilter.Some?
        && (exists f <- cursor.sourceFilter.value :: Known(f))
        && (forall f <- cursor.sourceFilter.value :: !Malformed(f)))
  }

  /** Exactly when the builder gives a clause. */
  lemma BuildsExactlyWhen(cursor: Cursor, startIndex: int)
    ensures Built(cursor, startIndex).Ok? <==> Buildable(cursor)
  {
    if cursor.sourceFilter.Some? {
      RebuiltFailsOnMalformed(cursor.sourceFilter.value, startIndex);
    }
  }

  // ----- what the clause means -----

  /** The database's comparisons of non-null values, and its case folding. */
  datatype Comparisons = Comparisons(
    holds: (string, Value, Value) -> bool, lower: Value -> Value, like: (Value, Value) -> bool)

  predicate Holds(op: string, a: Value, b: Value, db: Comparisons) {
    a != Null && b != Null && db.holds(op, a, b)
  }

  predicate HoldsLower(a: Value, b: Value, db: Comparisons) {
    a != Null && b != Null && db.holds("=", db.lower(a), db.lower(b))
  }

  predicate ILike(a: Value, pattern: Value, db: Comparisons) {
    a != Null && pattern != Null && db.like(db.lower(a), db.lower(pattern))
  }

  /** What a filter asks of a row, SQL's unknown counting as no. */
  predicate Satisfies(row: Row, f: CursorFilter, db: Comparisons)
    requires Known(f) && !Malformed(f)
  {
    var v := Cell(row, f.field);
    match f.operator
    case "=" => if f.caseInsensitive && f.value.Str? then HoldsLower(v, f.value, db) else Holds("=", v, f.value, db)
    case "IN" => exists item <- f.value.items :: Holds("=", v, item, db)
    case "NOT IN" => forall item <- f.value.items :: v != Null && item != Null && !Holds("=", v, item, db)
    case "IS NULL" => v == Null
    case "IS NOT NULL" => v != Null
    case "BETWEEN" => Holds(">=", v, Element(f.value, 0), db) && Holds("<=", v, Element(f.value, 1), db)
    case "LIKE" => ILike(v, f.value, db)
    case _ => Holds(f.operator, v, f.value, db)
  }

  /** The value bound to a placeholder of a statement, numbered from 1. */
  function Bound(all: seq<Value>, index: int): Value {
    if 1 <= index <= |all| then all[index - 1] else Null
  }

  predicate True(row: Row, c: Clause, all: seq<Value>, db: Comparisons) {
    match c
    case Compare(op, field, i) => Holds(op, Cell(row, field), Bound(all, i), db)
    case LowerEquals(field, i) => HoldsLower(Cell(row, field), Bound(all, i), db)
    case OneOf(field, indices) => exists i <- indices :: Holds("=", Cell(row, field), Bound(all, i), db)
    case NoneOf(field, indices) =>
      forall i <- indices :: Cell(row, field) != Null && Bound(all, i) != Null && !Holds("=", Cell(row, field), Bound(all, i), db)
    case IsNullClause(field) => Cell(row, field) == Null
    case IsNotNullClause(field) => Cell(row, field) != Null
    case BetweenClause(field, low, high) =>
      Holds(">=", Cell(row, field), Bound(all, low), db) && Holds("<=", Cell(row, field), Bound(all, high), db)
    case ILikeClause(field, i) => ILike(Cell(row, field), Bound(all, i), db)
    case AnyClause(field, i) =>
      Bound(all, i).Arr? && exists item <- Bound(all, i).items :: Holds("=", Cell(row, field), item, db)
  }

  predicate AllTrue(row: Row, cs: seq<Clause>, all: seq<Value>, db: Comparisons) {
    forall c <- cs :: True(row, c, all, db)
  }

  /** The statement's parameters hold `params` from placeholder `index` on. */
  ghost predicate BoundFrom(all: seq<Value>, index: int, params: seq<Value>) {
    1 <= index && index - 1 + |params| <= |all| && all[index - 1..index - 1 + |params|] == params
  }

  lemma BoundAt(all: seq<Value>, index: int, params: seq<Value>, i: nat)
    requires BoundFrom(all, index, params) && i < |params|
    ensures Bound(all, index + i) == params[i]
  {
    assert all[index - 1..index - 1 + |params|][i] == all[index - 1 + i];
  }

  /** A list operator over no values: the clause text is `IN ()` or `NOT IN ()`. */
  predicate EmptyList(f: CursorFilter) {
    (f.operator == "IN" || f.operator == "NOT IN") && f.value == Arr([])
  }

  /** The database does not accept a list of no placeholders. */
  predicate Accepted(c: Clause) {
    (c.OneOf? || c.NoneOf? ==> c.indices != [])
  }

  /** The truth of the clauses for a row, or none if the database rejects the statement. */
  ghost function Meaning(row: Row, cs: seq<Clause>, all: seq<Value>, db: Comparisons): Option<bool> {
    if forall c <- cs :: Accepted(c) then Some(AllTrue(row, cs, all, db)) else None
  }

  /** What a cursor asks of a row, or none if one of its lists is empty. */
  ghost function Asked(cursor: Cursor, row: Row, db: Comparisons): Option<bool>
    requires Buildable(cursor)
  {
    if HasIds(cursor) then Some(exists id <- cursor.ids.value :: Holds("=", Cell(row, cursor.primaryKey), id, db))
    else if exists f <- cursor.sourceFilter.value :: EmptyList(f) then None
    else Some(forall f <- cursor.sourceFilter.value :: Known(f) ==> Satisfies(row, f, db))
  }

  /** The values bound to the placeholders of a list are its items. */
  lemma ListIsBound(index: int, items: seq<Value>, all: seq<Value>)
    requires BoundFrom(all, index, items)
    ensures forall i <- Numbers(index, |items|) :: Bound(all, i) in items
    ensures forall item <- items :: exists i <- Numbers(index, |items|) :: Bound(all, i) == item
  {
    var indices := Numbers(index, |items|);
    forall k | 0 <= k < |items| ensures indices[k] == index + k && Bound(all, indices[k]) == items[k] && indices[k] in indices {
      BoundAt(all, index, items, k);
    }
  }

  lemma ListMeansFilter(row: Row, f: CursorFilter, index: int, all: seq<Value>, db: Comparisons)
    requires (f.operator == "IN" || f.operator == "NOT IN") && f.value.Arr? && BoundFrom(all, index, f.value.items)
    ensures True(row, ClauseOf(f, index), all, db) <==> Satisfies(row, f, db)
  {
    ListIsBound(index, f.value.items, all);
  }

  lemma ClauseMeansFilter(row: Row, f: CursorFilter, index: int, all: seq<Value>, db: Comparisons)
    requires Known(f) && !Malformed(f) && BoundFrom(all, index, ParamsOf(f))
    ensures True(row, ClauseOf(f, index), all, db) <==> Satisfies(row, f, db)
  {
    var params := ParamsOf(f);
    if f.operator == "IN" || f.operator == "NOT IN" {
      ListMeansFilter(row, f, index, all, db);
    } else if params != [] {
      BoundAt(all, index, params, 0);
      if f.operator == "BETWEEN" {
        BoundAt(all, index, params, 1);
      }
    }
  }

  lemma BoundInParts(all: seq<Value>, index: int, first: seq<Value>, rest: seq<Value>)
    requires BoundFrom(all, index, first + rest)
    ensures BoundFrom(all, index, first) && BoundFrom(all, index + |first|, rest)
  {
    var both := first + rest;
    var at := index - 1;
    assert all[at..at + |both|] == both;
    forall i | 0 <= i < |both| ensures all[at + i] == both[i] {
      assert all[at..at + |both|][i] == all[at + i];
    }
    forall i | 0 <= i < |first| ensures all[at..at + |first|][i] == first[i] {
      assert both[i] == first[i];
    }
    forall i | 0 <= i < |rest| ensures all[at + |first|..at + |first| + |rest|][i] == rest[i] {
      assert both[|first| + i] == rest[i];
    }
  }

  lemma AllTrueCons(row: Row, c: Clause, rest: seq<Clause>, all: seq<Value>, db: Comparisons)
    ensures AllTrue(row, [c] + rest, all, db) <==> True(row, c, all, db) && AllTrue(row, rest, all, db)
  {
    assert forall d :: d in [c] + rest <==> d == c || d in rest;
  }

  /** A clause is rejected exactly when it comes from a filter over an empty list. */
  lemma {:induction false} AcceptedJustWithoutEmptyLists(filters: seq<CursorFilter>, index: int)
    requires Rebuilt(filters, index).Ok?
    ensures (forall c <- Rebuilt(filters, index).value.0 :: Accepted(c)) <==> forall f <- filters :: !EmptyList(f)
  {
    if filters != [] {
      var f := filters[0];
      assert filters == [f] + filters[1..];
      assert forall g :: g in filters <==> g == f || g in filters[1..];
      if !Known(f) {
        AcceptedJustWithoutEmptyLists(filters[1..], index);
      } else {
        var rest := Rebuilt(filters[1..], index + |ParamsOf(f)|).value.0;
        AcceptedJustWithoutEmptyLists(filters[1..], index + |ParamsOf(f)|);
        assert Accepted(ClauseOf(f, index)) <==> !EmptyList(f) by {
          assert |Numbers(index, |ParamsOf(f)|)| == |ParamsOf(f)|;
        }
        assert forall d :: d in [ClauseOf(f, index)] + rest <==> d == ClauseOf(f, index) || d in rest;
      }
    }
  }

  lemma {:induction false} ClausesMeanFilters(
    row: Row, filters: seq<CursorFilter>, index: int, all: seq<Value>, db: Comparisons)
    requires Rebuilt(filters, index).Ok? && BoundFrom(all, index, Rebuilt(filters, index).value.1)
    ensures forall f <- filters :: !Malformed(f)
    ensures AllTrue(row, Rebuilt(filters, index).value.0, all, db)
       <==> forall f <- filters :: Known(f) ==> Satisfies(row, f, db)
  {
    RebuiltFailsOnMalformed(filters, index);
    if filters != [] {
      var f := filters[0];
      assert filters == [f] + filters[1..];
      if !Known(f) {
        ClausesMeanFilters(row, filters[1..], index, all, db);
      } else {
        var params := ParamsOf(f);
        var rest := Rebuilt(filters[1..], index + |params|).value;
        BoundInParts(all, index, params, rest.1);
        ClausesMeanFilters(row, filters[1..], index + |params|, all, db);
        ClauseMeansFilter(row, f, index, all, db);
        AllTrueCons(row, ClauseOf(f, index), rest.0, all, db);
      }
    }
  }

  /** What is rebuilt is what was asked: bound into any statement whose parameters hold the
      builder's from startIndex on, the clause is true of a row exactly when the row has one
      of the ids, or satisfies every filter with a known operator; and the database rejects
      it exactly when a list of those filters is empty. */
  lemma RebuiltWhereMeansCursor(row: Row, cursor: Cursor, startIndex: int, all: seq<Value>, db: Comparisons)
    requires Built(cursor, startIndex).Ok?
    requires BoundFrom(all, startIndex, Built(cursor, startIndex).value.params)
    ensures Buildable(cursor)
    ensures Meaning(row, Built(cursor, startIndex).value.clauses, all, db) == Asked(cursor, row, db)
  {
    var w := Built(cursor, startIndex).value;
    BuildsExactlyWhen(cursor, startIndex);
    if HasIds(cursor) {
      BoundAt(all, startIndex, w.params, 0);
      assert Bound(all, startIndex + 0) == w.params[0];
      assert AllTrue(row, w.clauses, all, db) <==> True(row, w.clauses[0], all, db);
      if |cursor.ids.value| == 1 {
        assert cursor.ids.value == [cursor.ids.value[0]];
      } else {
        assert Bound(all, startIndex) == Arr(cursor.ids.value);
      }
    } else {
      ClausesMeanFilters(row, cursor.sourceFilter.value, startIndex, all, db);
      AcceptedJustWithoutEmptyLists(cursor.sourceFilter.value, startIndex);
    }
  }

  /** The errors: no ids and no filters; no known operator; or a list that is not there. */
  lemma WhyNothingIsBuilt(cursor: Cursor, startIndex: int)
    requires Built(cursor, startIndex).Err?
    ensures Built(cursor, startIndex).error == NothingToFilterBy <==> cursor.sourceFilter.None?
    ensures Built(cursor, startIndex).error == NoClauses <==>
              cursor.sourceFilter.Some? && forall f <- cursor.sourceFilter.value :: !Known(f)
  {
    if cursor.sourceFilter.Some? {
      RebuiltFailsOnMalformed(cursor.sourceFilter.value, startIndex);
    }
  }

  /** The builder gives a clause exactly for the cursors that have something to filter by.
      Its placeholders run from startIndex on, one for each parameter, and bound into any
      statement it means what the cursor asks; it counts as bulk unless it names one id. */
  method BuildWhereFromCursor(cursor: Cursor, startIndex: int) returns (r: Result<Where, CursorError>)
    ensures r.Ok? <==> Buildable(cursor)
    ensures r.Ok? ==> r.value.clauses != [] && AllPlaceholders(r.value.clauses) == Numbers(startIndex, |r.value.params|)
    ensures r.Ok? ==> (r.value.isBulk <==> !(HasIds(cursor) && |cursor.ids.value| == 1))
    ensures r.Ok? ==>
              forall row: Row, all: seq<Value>, db: Comparisons :: BoundFrom(all, startIndex, r.value.params) ==>
                Meaning(row, r.value.clauses, all, db) == Asked(cursor, row, db)
    ensures r.Err? ==> (r.error == NothingToFilterBy <==> cursor.sourceFilter.None?)
    ensures r.Err? ==> (r.error == NoClauses <==>
                          cursor.sourceFilter.Some? && forall f <- cursor.sourceFilter.value :: !Known(f))
    ensures r == Built(cursor, startIndex)
  {
    if cursor.ids.Some? && |cursor.ids.value| > 0 {
      var ids := cursor.ids.value;
      if |ids| == 1 {
        r := Ok(Where([Compare("=", cursor.primaryKey, startIndex)], [ids[0]], false));
      } else {
        r := Ok(Where([AnyClause(cursor.primaryKey, startIndex)], [Arr(ids)], |ids| > 1));
      }
    } else if cursor.sourceFilter.Some? {
      var rebuilt := RebuildFilters(cursor.sourceFilter.value, startIndex);
      if rebuilt.Err? {
        r := Err(rebuilt.error);
      } else if |rebuilt.value.0| == 0 {
        r := Err(NoClauses);
      } else {
        r := Ok(Where(rebuilt.value.0, rebuilt.value.1, true));
      }
    } else {
      r := Err(NothingToFilterBy);
    }
    BuiltMeansCursor(cursor, startIndex);
  }

  lemma BuiltMeansCursor(cursor: Cursor, startIndex: int)
    ensures var r := Built(cursor, startIndex);
      if r.Ok?
      then
        && Buildable(cursor)
        && r.value.clauses != [] && AllPlaceholders(r.value.clauses) == Numbers(startIndex, |r.value.params|)
        && forall row: Row, all: seq<Value>, db: Comparisons :: BoundFrom(all, startIndex, r.value.params) ==>
             Meaning(row, r.value.clauses, all, db) == Asked(cursor, row, db)
      else
        && !Buildable(cursor)
        && (r.error == NothingToFilterBy <==> cursor.sourceFilter.None?)
        && (r.error == NoClauses <==> cursor.sourceFilter.Some? && forall f <- cursor.sourceFilter.value :: !Known(f))
  {
    BuildsExactlyWhen(cursor, startIndex);
    if Built(cursor, startIndex).Ok? {
      PlaceholdersAreSequential(cursor, startIndex);
      forall row: Row, all: seq<Value>, db: Comparisons
        | BoundFrom(all, startIndex, Built(cursor, startIndex).value.params)
        ensures Meaning(row, Built(cursor, startIndex).value.clauses, all, db) == Asked(cursor, row, db)
      {
        RebuiltWhereMeansCursor(row, cursor, startIndex, all, db);
      }
    } else {
      WhyNothingIsBuilt(cursor, startIndex);
    }
  }

  /** A cursor points back at its rows: every row of a result of 1 to 50 rows whose key
      equals itself in the database satisfies the rebuilt clause; of no rows there is none. */
  lemma SmallResultsAreFoundAgain(
    rows: seq<Row>, primaryKey: string, filter: Option<seq<CursorFilter>>, startIndex: int,
    all: seq<Value>, db: Comparisons, i: nat)
    requires |rows| <= CURSOR_ID_LIMIT
    ensures rows == [] ==> Built(ExtractCursor(rows, primaryKey, filter), startIndex) == Err(NothingToFilterBy)
    ensures rows != [] ==>
              var built := Built(ExtractCursor(rows, primaryKey, filter), startIndex);
              && built.Ok?
              && (BoundFrom(all, startIndex, built.value.params) && i < |rows|
                  && Holds("=", Cell(rows[i], primaryKey), Cell(rows[i], primaryKey), db) ==>
                    Meaning(rows[i], built.value.clauses, all, db) == Some(true))
  {
    var cursor := ExtractCursor(rows, primaryKey, filter);
    if rows != [] {
      var built := Built(cursor, startIndex).value;
      if BoundFrom(all, startIndex, built.params) && i < |rows| {
        RebuiltWhereMeansCursor(rows[i], cursor, startIndex, all, db);
        assert cursor.ids.value[i] in cursor.ids.value;
      }
    }
  }
}
