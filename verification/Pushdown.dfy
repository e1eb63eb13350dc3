/** Predicate pushdown preserves meaning: on the numeric and boolean fragment the pushed
    clause, read with SQL's three-valued logic, has the value in-memory evaluation has. */
module Pushdown {
  import opened Common
  import opened DataValues
  import opened ExprEvaluator
  import opened PredicateToSql

  // ----- what SQL makes of a clause -----

  type Columns = (string, string) -> Option<Value>

  function SqlCompare(op: BinaryOp, l: Value, r: Value): Option<Value> {
    if l == Null || r == Null then Some(Null)
    else if l.Num? && r.Num? then
      Some(Bool(if op == Eq then l.n == r.n else if op == Ne then l.n != r.n else CompareNumbers(op, l.n, r.n)))
    else if l.Bool? && r.Bool? && op == Eq then Some(Bool(l.b == r.b))
    else if l.Bool? && r.Bool? && op == Ne then Some(Bool(l.b != r.b))
    else None
  }

  function SqlArithmetic(op: BinaryOp, l: Value, r: Value): Option<Value> {
    if l == Null || r == Null then Some(Null)
    else if !l.Num? || !r.Num? then None
    else
      match op
      case Add => Some(Num(l.n + r.n))
      case Sub => Some(Num(l.n - r.n))
      case Mul => Some(Num(l.n * r.n))
      case _ => None
  }

  /** Kleene conjunction. */
  function SqlAnd(l: Value, r: Value): Option<Value> {
    if !(l == Null || l.Bool?) || !(r == Null || r.Bool?) then None
    else if l == Bool(false) || r == Bool(false) then Some(Bool(false))
    else if l == Null || r == Null then Some(Null)
    else Some(Bool(true))
  }

  function SqlOr(l: Value, r: Value): Option<Value> {
    if !(l == Null || l.Bool?) || !(r == Null || r.Bool?) then None
    else if l == Bool(true) || r == Bool(true) then Some(Bool(true))
    else if l == Null || r == Null then Some(Null)
    else Some(Bool(false))
  }

  function SqlApply(op: BinaryOp, l: Value, r: Value): Option<Value> {
    match op
    case Add | Sub | Mul | Div | Mod => SqlArithmetic(op, l, r)
    case Eq | Ne | Lt | Gt | Le | Ge => SqlCompare(op, l, r)
    case And => SqlAnd(l, r)
    case Or => SqlOr(l, r)
    case _ => None
  }

  /** Membership is a chain of equalities joined by OR. */
  function SqlIn(v: Value, items: seq<Value>): Option<Value> {
    if items == [] then Some(Bool(false))
    else
      match (SqlCompare(Eq, v, items[0]), SqlIn(v, items[1..]))
      case (Some(a), Some(b)) => SqlOr(a, b)
      case _ => None
  }

  /** The value of a clause under the given parameters, numbered from 1, and column values;
      nothing where SQL would report a type error or the clause is outside the fragment. */
  function SqlEval(s: Sql, params: seq<Value>, columns: Columns): Option<Value>
    decreases s, 1
  {
    match s
    case SqlNull => Some(Null)
    case Param(index, cast) =>
      if !(1 <= index <= |params|) then None
      else
        var v := params[index - 1];
        if (cast == AsNumeric && !v.Num?) || (cast == AsBoolean && !v.Bool?) then None else Some(v)
    case Column(table, field) => columns(table, field)
    case SqlBinary(op, l, r) =>
      (match (SqlEval(l, params, columns), SqlEval(r, params, columns))
       case (Some(x), Some(y)) => SqlApply(op, x, y)
       case _ => None)
    case SqlUnary(op, arg) =>
      (match SqlEval(arg, params, columns)
       case Some(Null) => Some(Null)
       case Some(Bool(b)) => if op == Not then Some(Bool(!b)) else None
       case Some(Num(n)) => if op == Neg then Some(Num(-n)) else None
       case _ => None)
    case IsNullTest(arg) =>
      (match SqlEval(arg, params, columns)
       case Some(x) => Some(Bool(x == Null))
       case None => None)
    case IsNotNullTest(arg) =>
      (match SqlEval(arg, params, columns)
       case Some(x) => Some(Bool(x != Null))
       case None => None)
    case Case(c, t, f) =>
      (match SqlEval(c, params, columns)
       case Some(Bool(true)) => SqlEval(t, params, columns)
       case Some(Bool(false)) => SqlEval(f, params, columns)
       case Some(Null) => SqlEval(f, params, columns)
       case _ => None)
    case InList(arg, items) =>
      (match (SqlEval(arg, params, columns), SqlEvalAll(items, params, columns))
       case (Some(x), Some(xs)) => if xs == [] then None else SqlIn(x, xs)
       case _ => None)
    case SqlBetween(arg, low, high) =>
      (match (SqlEval(arg, params, columns), SqlEval(low, params, columns), SqlEval(high, params, columns))
       case (Some(x), Some(lo), Some(hi)) =>
         (match (SqlCompare(Ge, x, lo), SqlCompare(Le, x, hi))
          case (Some(a), Some(b)) => SqlAnd(a, b)
          case _ => None)
       case _ => None)
    case _ => None
  }

  function SqlEvalAll(ss: seq<Sql>, params: seq<Value>, columns: Columns): Option<seq<Value>>
    decreases ss, 0
  {
    if ss == [] then Some([])
    else
      match (SqlEval(ss[0], params, columns), SqlEvalAll(ss[1..], params, columns))
      case (Some(x), Some(xs)) => Some([x] + xs)
      case _ => None
  }

  // ----- the fragment -----

  datatype Base = Number | Boolean

  datatype Typed = Typed(base: Base, nullable: bool)

  /** Known columns with their types; text columns are not among them. */
  type Schema = (string, string) -> Option<Typed>

  predicate OfType(v: Value, t: Typed) {
    (v == Null && t.nullable) || (t.base == Number && v.Num?) || (t.base == Boolean && v.Bool?)
  }

  predicate Solid(t: Option<Typed>, base: Base) {
    t == Some(Typed(base, false))
  }

  predicate LiteralsOf(values: seq<Expr>, base: Base) {
    forall x | x in values :: x.Literal? && OfType(x.value, Typed(base, false))
  }

  function TypeOfBinary(op: BinaryOp, l: Option<Typed>, r: Option<Typed>, rightIsNull: bool): Option<Typed> {
    match op
    case Add | Sub | Mul => if Solid(l, Number) && Solid(r, Number) then Some(Typed(Number, false)) else None
    case Eq | Ne =>
      if l.Some? && (rightIsNull || (!l.value.nullable && r == l)) then Some(Typed(Boolean, false)) else None
    case Lt | Gt | Le | Ge => if Solid(l, Number) && Solid(r, Number) then Some(Typed(Boolean, false)) else None
    case And | Or => if Solid(l, Boolean) && Solid(r, Boolean) then Some(Typed(Boolean, false)) else None
    case _ => None
  }

  /** The type of an expression of the fragment: number and boolean literals; columns;
      + - *; comparisons; AND, OR, NOT and negation; CASE; BETWEEN; IN over literals; and
      null tests, the only place where a nullable column may stand. */
  function TypeOf(e: Expr, schema: Schema): Option<Typed> {
    match e
    case Literal(v, _) =>
      if v.Num? then Some(Typed(Number, false)) else if v.Bool? then Some(Typed(Boolean, false)) else None
    case FieldRef(table, field) => schema(table, field)
    case Binary(op, left, right) =>
      TypeOfBinary(op, TypeOf(left, schema), TypeOf(right, schema), right.Literal? && right.value == Null)
    case Unary(op, operand) =>
      var b := if op == Not then Boolean else Number;
      if Solid(TypeOf(operand, schema), b) then Some(Typed(b, false)) else None
    case Conditional(condition, onTrue, onFalse) =>
      var t, f := TypeOf(onTrue, schema), TypeOf(onFalse, schema);
      if Solid(TypeOf(condition, schema), Boolean) && t.Some? && f.Some? && t.value.base == f.value.base
      then Some(Typed(t.value.base, t.value.nullable || f.value.nullable)) else None
    case IsNull(expr) => if TypeOf(expr, schema).Some? then Some(Typed(Boolean, false)) else None
    case In(expr, values) =>
      var t := TypeOf(expr, schema);
      if t.Some? && !t.value.nullable && values != [] && LiteralsOf(values, t.value.base)
      then Some(Typed(Boolean, false)) else None
    case Between(expr, low, high) =>
      if Solid(TypeOf(expr, schema), Number) && Solid(TypeOf(low, schema), Number) && Solid(TypeOf(high, schema), Number)
      then Some(Typed(Boolean, false)) else None
    case _ => None
  }

  /** One row, in memory and in the database, and what translation looks up. */
  datatype Setting = Setting(
    schema: Schema, columns: Columns, scope: Scope, row: Option<Row>, env: Env, tableName: string, cat: Catalog)

  /** Known columns hold the same, well-typed values on both sides, and none is a text column. */
  ghost predicate SameRow(c: Setting) {
    forall table, field :: c.schema(table, field).Some? ==>
      && c.columns(table, field).Some?
      && EvaluateField(table, field, c.scope, c.row) == Ok(c.columns(table, field).value)
      && OfType(c.columns(table, field).value, c.schema(table, field).value)
      && !c.cat.isText(if table == "" then c.tableName else table, field)
  }

  /** `added` sits in the parameter list right after its first `base` values. */
  ghost predicate Placed(params: seq<Value>, base: nat, added: seq<Value>) {
    base + |added| <= |params| && params[base..base + |added|] == added
  }

  lemma PlacedSplit(params: seq<Value>, base: nat, a: seq<Value>, b: seq<Value>)
    requires Placed(params, base, a + b)
    ensures Placed(params, base, a) && Placed(params, base + |a|, b)
  {
    assert params[base..base + |a|] == (a + b)[..|a|] == a;
    assert params[base + |a|..base + |a| + |b|] == (a + b)[|a|..] == b;
  }

  /** A piece placed after `base` values evaluates to v. */
  ghost predicate Means(p: Piece<Sql>, v: Value, base: nat, params: seq<Value>, columns: Columns) {
    Placed(params, base, p.added) ==> SqlEval(p.sql, params, columns) == Some(v)
  }

  lemma MeansInSequence(
    x: seq<Value>, y: Piece<Sql>, v: Value, base: nat, params: seq<Value>, columns: Columns)
    requires Means(y, v, base + |x|, params, columns) && Placed(params, base, x + y.added)
    ensures Placed(params, base, x) && SqlEval(y.sql, params, columns) == Some(v)
  {
    PlacedSplit(params, base, x, y.added);
  }

  /** What the main lemma says of one expression, whatever the list held before it and
      whatever is appended after it. */
  ghost predicate Preserved(e: Expr, c: Setting, base: nat, params: seq<Value>) {
    var t := Translate(e, c.tableName, c.cat, base);
    var v := Evaluate(e, c.scope, c.row, c.env);
    && t.Ok? && v.Ok?
    && Means(t.value, v.value, base, params, c.columns)
    && TypeOf(e, c.schema).Some? && OfType(v.value, TypeOf(e, c.schema).value)
  }

  // ----- the parts of an expression -----

  /** A part's value is well typed. */
  ghost predicate Evaluates(e: Expr, c: Setting) {
    var v := Evaluate(e, c.scope, c.row, c.env);
    v.Ok? && TypeOf(e, c.schema).Some? && OfType(v.value, TypeOf(e, c.schema).value)
  }

  ghost predicate TwoMean(
    t: Translation<(Sql, Sql)>, v: Value, w: Value, base: nat, params: seq<Value>, columns: Columns)
  {
    && t.Ok?
    && (Placed(params, base, t.value.added) ==>
          && SqlEval(t.value.sql.0, params, columns) == Some(v)
          && SqlEval(t.value.sql.1, params, columns) == Some(w))
  }

  ghost predicate ThreeMean(
    t: Translation<(Sql, Sql, Sql)>, v: Value, w: Value, z: Value, base: nat, params: seq<Value>, columns: Columns)
  {
    && t.Ok?
    && (Placed(params, base, t.value.added) ==>
          && SqlEval(t.value.sql.0, params, columns) == Some(v)
          && SqlEval(t.value.sql.1, params, columns) == Some(w)
          && SqlEval(t.value.sql.2, params, columns) == Some(z))
  }

  lemma TwoParts(
    e: Expr, a: Expr, b: Expr, c: Setting, base: nat, params: seq<Value>,
    x: Piece<Sql>, y: Piece<Sql>, v: Value, w: Value)
    requires a < e && b < e
    requires Translate(a, c.tableName, c.cat, base) == Ok(x)
    requires Translate(b, c.tableName, c.cat, base + |x.added|) == Ok(y)
    requires Means(x, v, base, params, c.columns) && Means(y, w, base + |x.added|, params, c.columns)
    ensures TwoMean(TranslateTwo(e, a, b, c.tableName, c.cat, base), v, w, base, params, c.columns)
  {
    TwoFromParts(e, a, b, c.tableName, c.cat, base, x, y);
    if Placed(params, base, x.added + y.added) {
      MeansInSequence(x.added, y, w, base, params, c.columns);
    }
  }

  lemma ThreeParts(
    e: Expr, p: Expr, a: Expr, b: Expr, c: Setting, base: nat, params: seq<Value>,
    x: Piece<(Sql, Sql)>, y: Piece<Sql>, v: Value, w: Value, z: Value)
    requires p < e && a < e && b < e
    requires TranslateTwo(e, p, a, c.tableName, c.cat, base) == Ok(x)
    requires Translate(b, c.tableName, c.cat, base + |x.added|) == Ok(y)
    requires TwoMean(Ok(x), v, w, base, params, c.columns) && Means(y, z, base + |x.added|, params, c.columns)
    ensures ThreeMean(TranslateThree(e, p, a, b, c.tableName, c.cat, base), v, w, z, base, params, c.columns)
  {
    ThreeFromTwo(e, p, a, b, c.tableName, c.cat, base, x, y);
    if Placed(params, base, x.added + y.added) {
      MeansInSequence(x.added, y, z, base, params, c.columns);
    }
  }

  ghost predicate ThreePreserved(e: Expr, p: Expr, a: Expr, b: Expr, c: Setting, base: nat, params: seq<Value>)
    requires p < e && a < e && b < e
  {
    && Evaluates(p, c) && Evaluates(a, c) && Evaluates(b, c)
    && ThreeMean(TranslateThree(e, p, a, b, c.tableName, c.cat, base),
         Evaluate(p, c.scope, c.row, c.env).value, Evaluate(a, c.scope, c.row, c.env).value,
         Evaluate(b, c.scope, c.row, c.env).value, base, params, c.columns)
  }

  lemma OneArgumentPreserved(e: Expr, arg: Expr, c: Setting, base: nat, params: seq<Value>)
    requires (e.Unary? && e.operand == arg) || (e.IsNull? && e.expr == arg)
    requires TypeOf(e, c.schema).Some? && Preserved(arg, c, base, params)
    ensures Preserved(e, c, base, params)
  {
  }

  lemma CasePreserved(e: Expr, c: Setting, base: nat, params: seq<Value>)
    requires e.Conditional? && TypeOf(e, c.schema).Some?
    requires ThreePreserved(e, e.condition, e.onTrue, e.onFalse, c, base, params)
    ensures Preserved(e, c, base, params)
  {
  }

  lemma BetweenPreserved(e: Expr, c: Setting, base: nat, params: seq<Value>)
    requires e.Between? && TypeOf(e, c.schema).Some?
    requires ThreePreserved(e, e.expr, e.low, e.high, c, base, params)
    ensures Preserved(e, c, base, params)
  {
  }

  /** A comparison with the literal null becomes a null test. */
  lemma NullTestPreserved(e: Expr, c: Setting, base: nat, params: seq<Value>)
    requires e.Binary? && e.right.Literal? && e.right.value == Null && TypeOf(e, c.schema).Some?
    requires Preserved(e.left, c, base, params)
    ensures Preserved(e, c, base, params)
  {
    var x := Translate(e.left, c.tableName, c.cat, base).value;
    assert Translate(e.right, c.tableName, c.cat, base + |x.added|) == Ok(Piece(SqlNull, []));
    assert x.added + [] == x.added;
    assert TranslateTwo(e, e.left, e.right, c.tableName, c.cat, base) == Ok(Piece((x.sql, SqlNull), x.added));
  }

  lemma BinaryPreserved(e: Expr, c: Setting, base: nat, params: seq<Value>)
    requires SameRow(c) && e.Binary? && !(e.right.Literal? && e.right.value == Null) && TypeOf(e, c.schema).Some?
    requires Evaluates(e.left, c) && Evaluates(e.right, c)
    requires TwoMean(TranslateTwo(e, e.left, e.right, c.tableName, c.cat, base),
               Evaluate(e.left, c.scope, c.row, c.env).value, Evaluate(e.right, c.scope, c.row, c.env).value,
               base, params, c.columns)
    ensures Preserved(e, c, base, params)
  {
    assert !IsTextField(e.left, c.tableName, c.cat);
  }

  lemma {:induction false} ItemsPreserved(
    values: seq<Expr>, b: Base, c: Setting, base: nat, params: seq<Value>)
    requires LiteralsOf(values, b)
    ensures EvaluateAll(values, c.scope, c.row, c.env).Ok? && InItems(values, false, c.cat, base).Ok?
    ensures var vs := EvaluateAll(values, c.scope, c.row, c.env).value;
            var items := InItems(values, false, c.cat, base).value;
            && (forall v <- vs :: OfType(v, Typed(b, false)))
            && (Placed(params, base, items.added) ==> SqlEvalAll(items.sql, params, c.columns) == Some(vs))
  {
    if values != [] {
      ItemsPreserved(values[1..], b, c, base + 1, params);
      var v, rest := values[0].value, InItems(values[1..], false, c.cat, base + 1).value;
      assert values[0] in values;
      if Placed(params, base, [v] + rest.added) {
        PlacedSplit(params, base, [v], rest.added);
        assert params[base] == params[base..base + 1][0] == v;
      }
    }
  }

  lemma {:induction false} ChainIsMembership(v: Value, items: seq<Value>, b: Base)
    requires OfType(v, Typed(b, false)) && forall x <- items :: OfType(x, Typed(b, false))
    ensures SqlIn(v, items) == Some(Bool(v in items))
  {
    if items != [] {
      ChainIsMembership(v, items[1..], b);
      assert items[0] in items && items == [items[0]] + items[1..];
    }
  }

  lemma InListMeans(
    x: Piece<Sql>, v: Value, items: Piece<seq<Sql>>, vs: seq<Value>, b: Base, base: nat, params: seq<Value>, columns: Columns)
    requires Means(x, v, base, params, columns) && OfType(v, Typed(b, false))
    requires Placed(params, base + |x.added|, items.added) ==> SqlEvalAll(items.sql, params, columns) == Some(vs)
    requires vs != [] && forall w <- vs :: OfType(w, Typed(b, false))
    ensures Means(Piece(InList(x.sql, items.sql), x.added + items.added), Bool(v in vs), base, params, columns)
  {
    ChainIsMembership(v, vs, b);
    if Placed(params, base, x.added + items.added) {
      PlacedSplit(params, base, x.added, items.added);
    }
  }

  lemma InPreserved(e: Expr, c: Setting, base: nat, params: seq<Value>)
    requires SameRow(c) && e.In? && TypeOf(e, c.schema).Some?
    requires Preserved(e.expr, c, base, params)
    ensures Preserved(e, c, base, params)
  {
    var b := TypeOf(e.expr, c.schema).value.base;
    var x := Translate(e.expr, c.tableName, c.cat, base).value;
    assert !IsTextField(e.expr, c.tableName, c.cat);
    ItemsPreserved(e.values, b, c, base + |x.added|, params);
    var items := InItems(e.values, false, c.cat, base + |x.added|).value;
    var vs := EvaluateAll(e.values, c.scope, c.row, c.env).value;
    InFromParts(e, c.tableName, c.cat, base, x, items);
    InListMeans(x, Evaluate(e.expr, c.scope, c.row, c.env).value, items, vs, b, base, params, c.columns);
  }

  // ----- the main results -----

  /** Pushing down keeps the meaning: every expression of the fragment translates, and its
      clause evaluates to what the expression evaluates to, wherever its values sit in
      the shared list. */
  lemma {:induction false} PushdownPreserves(e: Expr, c: Setting, base: nat, params: seq<Value>)
    requires SameRow(c) && TypeOf(e, c.schema).Some?
    ensures Preserved(e, c, base, params)
    decreases e
  {
    match e
    case Literal(v, _) =>
      if Placed(params, base, [v]) {
        assert params[base] == params[base..base + 1][0] == v;
      }
    case FieldRef(_, _) =>
    case Binary(op, left, right) =>
      PushdownPreserves(left, c, base, params);
      if right.Literal? && right.value == Null {
        NullTestPreserved(e, c, base, params);
      } else {
        PreservesTwo(e, left, right, c, base, params);
        BinaryPreserved(e, c, base, params);
      }
    case Unary(_, operand) =>
      PushdownPreserves(operand, c, base, params);
      OneArgumentPreserved(e, operand, c, base, params);
    case Conditional(condition, onTrue, onFalse) =>
      PreservesThree(e, condition, onTrue, onFalse, c, base, params);
      CasePreserved(e, c, base, params);
    case IsNull(expr) =>
      PushdownPreserves(expr, c, base, params);
      OneArgumentPreserved(e, expr, c, base, params);
    case In(expr, _) =>
      PushdownPreserves(expr, c, base, params);
      InPreserved(e, c, base, params);
    case Between(expr, low, high) =>
      PreservesThree(e, expr, low, high, c, base, params);
      BetweenPreserved(e, c, base, params);
  }

  lemma {:induction false} PreservesTwo(
    e: Expr, a: Expr, b: Expr, c: Setting, base: nat, params: seq<Value>)
    requires a < e && b < e && SameRow(c)
    requires TypeOf(a, c.schema).Some? && TypeOf(b, c.schema).Some?
    ensures Evaluates(a, c) && Evaluates(b, c)
    ensures TwoMean(TranslateTwo(e, a, b, c.tableName, c.cat, base),
              Evaluate(a, c.scope, c.row, c.env).value, Evaluate(b, c.scope, c.row, c.env).value,
              base, params, c.columns)
    decreases e, 0
  {
    PushdownPreserves(a, c, base, params);
    var x := Translate(a, c.tableName, c.cat, base).value;
    PushdownPreserves(b, c, base + |x.added|, params);
    TwoParts(e, a, b, c, base, params, x, Translate(b, c.tableName, c.cat, base + |x.added|).value,
      Evaluate(a, c.scope, c.row, c.env).value, Evaluate(b, c.scope, c.row, c.env).value);
  }

  lemma {:induction false} PreservesThree(
    e: Expr, p: Expr, a: Expr, b: Expr, c: Setting, base: nat, params: seq<Value>)
    requires p < e && a < e && b < e && SameRow(c)
    requires TypeOf(p, c.schema).Some? && TypeOf(a, c.schema).Some? && TypeOf(b, c.schema).Some?
    ensures ThreePreserved(e, p, a, b, c, base, params)
    decreases e, 1
  {
    PreservesTwo(e, p, a, c, base, params);
    var x := TranslateTwo(e, p, a, c.tableName, c.cat, base).value;
    PushdownPreserves(b, c, base + |x.added|, params);
    ThreeParts(e, p, a, b, c, base, params, x, Translate(b, c.tableName, c.cat, base + |x.added|).value,
      Evaluate(p, c.scope, c.row, c.env).value, Evaluate(a, c.scope, c.row, c.env).value,
      Evaluate(b, c.scope, c.row, c.env).value);
  }

  /** The same of the translator itself: under its final list, and under whatever later
      calls make of it, the clause returned has the value of evaluation. */
  lemma PushedClauseMeansEvaluation(
    e: Expr, c: Setting, before: seq<Value>, r: Result<Sql, Unsupported>, after: seq<Value>, later: seq<Value>)
    requires SameRow(c) && TypeOf(e, c.schema).Some?
    requires Pushed(Translate(e, c.tableName, c.cat, |before|), before, r, after) && after <= later
    ensures r.Ok? && Evaluate(e, c.scope, c.row, c.env).Ok?
    ensures SqlEval(r.value, later, c.columns) == Some(Evaluate(e, c.scope, c.row, c.env).value)
  {
    PushdownPreserves(e, c, |before|, later);
    PlacedAfter(before, Translate(e, c.tableName, c.cat, |before|).value.added, later);
  }

  lemma PlacedAfter(before: seq<Value>, added: seq<Value>, later: seq<Value>)
    requires before + added <= later
    ensures Placed(later, |before|, added)
  {
    assert later[|before|..|before| + |added|] == (before + added)[|before|..] == added;
  }

  /** Why a nullable column may stand only under a null test: where it holds null, `x != n`
      is true in memory and null in SQL, so the row is kept by one and dropped by the other. */
  lemma NullIsUnequalInMemoryOnly(table: string, field: string, n: real, c: Setting, params: seq<Value>)
    requires EvaluateField(table, field, c.scope, c.row) == Ok(Null) && c.columns(table, field) == Some(Null)
    requires !c.cat.isText(if table == "" then c.tableName else table, field)
    ensures var e := Binary(Ne, FieldRef(table, field), Literal(Num(n), TNumber));
            var t := Translate(e, c.tableName, c.cat, |params|);
            && Evaluate(e, c.scope, c.row, c.env) == Ok(Bool(true)) && t.Ok?
            && SqlEval(t.value.sql, params + t.value.added, c.columns) == Some(Null)
  {
    NullUnequalTranslates(table, field, n, c, |params|);
    NullUnequalInSql(table, field, n, c.columns, params);
    NullUnequalEvaluates(table, field, n, c);
  }

  lemma NullUnequalTranslates(table: string, field: string, n: real, c: Setting, base: nat)
    requires !c.cat.isText(if table == "" then c.tableName else table, field)
    ensures Translate(Binary(Ne, FieldRef(table, field), Literal(Num(n), TNumber)), c.tableName, c.cat, base)
         == Ok(Piece(SqlBinary(Ne, Column(table, field), Param(base + 1, AsNumeric)), [Num(n)]))
  {
    var left, right := FieldRef(table, field), Literal(Num(n), TNumber);
    var e := Binary(Ne, left, right);
    assert Translate(left, c.tableName, c.cat, base) == Ok(Piece(Column(table, field), []));
    assert Translate(right, c.tableName, c.cat, base) == Ok(Piece(Param(base + 1, AsNumeric), [Num(n)]));
    assert TranslateTwo(e, left, right, c.tableName, c.cat, base)
        == Ok(Piece((Column(table, field), Param(base + 1, AsNumeric)), [Num(n)])) by {
      assert [] + [Num(n)] == [Num(n)];
    }
  }

  lemma NullUnequalInSql(table: string, field: string, n: real, columns: Columns, params: seq<Value>)
    requires columns(table, field) == Some(Null)
    ensures SqlEval(SqlBinary(Ne, Column(table, field), Param(|params| + 1, AsNumeric)), params + [Num(n)], columns) == Some(Null)
  {
    assert (params + [Num(n)])[|params|] == Num(n);
  }

  lemma NullUnequalEvaluates(table: string, field: string, n: real, c: Setting)
    requires EvaluateField(table, field, c.scope, c.row) == Ok(Null)
    ensures Evaluate(Binary(Ne, FieldRef(table, field), Literal(Num(n), TNumber)), c.scope, c.row, c.env) == Ok(Bool(true))
  {
    assert Evaluate(Literal(Num(n), TNumber), c.scope, c.row, c.env) == Ok(Num(n));
  }
}
