/** Predicate pushdown: expressions become SQL with numbered placeholders, the values going
    to one shared, growing parameter list. */
module PredicateToSql {
  import opened Common
  import opened DataValues
  import opened ExprEvaluator

  datatype SqlCast = NoCast | AsNumeric | AsBoolean

  datatype Sql =
    | SqlNull
    | Param(index: nat, cast: SqlCast)
    | Column(table: string, field: string)
    | SqlBinary(op: BinaryOp, l: Sql, r: Sql)
    | SqlUnary(uop: UnaryOp, arg: Sql)
    | IsNullTest(arg: Sql) | IsNotNullTest(arg: Sql)
    | NotInQuery(arg: Sql, query: string)
    | Lower(arg: Sql)
    | ILike(l: Sql, r: Sql)
    | SqlCall(name: string, args: seq<Sql>)
    | Case(condition: Sql, onTrue: Sql, onFalse: Sql)
    | InList(arg: Sql, items: seq<Sql>)
    | SqlBetween(arg: Sql, low: Sql, high: Sql)
    | CastTo(arg: Sql, ty: EngineType)
    | RawSql(text: string)

  /** What translation looks up: which columns hold text, and letter case. */
  datatype Catalog = Catalog(isText: (string, string) -> bool, toUpper: string -> string, toLower: string -> string)

  datatype Unsupported = Unsupported

  /** A clause, and the values it appends to the parameters. */
  datatype Piece<T> = Piece(sql: T, added: seq<Value>)

  type Translation<T> = Result<Piece<T>, Unsupported>

  const SUPPORTED_FUNCTIONS := [
    "ABS", "FLOOR", "CEIL", "ROUND", "UPPER", "LOWER", "TRIM", "LENGTH", "COALESCE", "NOW", "DATE_TRUNC"]

  function CastFor(v: Value): SqlCast {
    match v
    case Num(_) => AsNumeric
    case Bool(_) => AsBoolean
    case _ => NoCast
  }

  predicate IsTextField(e: Expr, tableName: string, cat: Catalog) {
    e.FieldRef? && cat.isText(if e.table == "" then tableName else e.table, e.field)
  }

  function CompareSql(op: BinaryOp, left: Expr, right: Expr, l: Sql, r: Sql, tableName: string, cat: Catalog): Sql {
    if right.Literal? && right.value == Null && op == Eq then IsNullTest(l)
    else if right.Literal? && right.value == Null && op == Ne then IsNotNullTest(l)
    else if op == Ne && right.SqlExpr? then NotInQuery(l, right.sql)
    else if (op == Eq || op == Ne) && IsTextField(left, tableName, cat) then SqlBinary(op, Lower(l), Lower(r))
    else SqlBinary(op, l, r)
  }

  function BinarySql(op: BinaryOp, left: Expr, right: Expr, l: Sql, r: Sql, tableName: string, cat: Catalog): Sql {
    match op
    case Eq | Ne | Lt | Gt | Le | Ge => CompareSql(op, left, right, l, r, tableName, cat)
    case Like => ILike(l, r)
    case _ => SqlBinary(op, l, r)
  }

  /** Literal list items; text columns are compared with lower-cased strings. */
  function InItems(values: seq<Expr>, isText: bool, cat: Catalog, base: nat): Translation<seq<Sql>> {
    if values == [] then Ok(Piece([], []))
    else if !values[0].Literal? then Err(Unsupported)
    else
      var v := values[0].value;
      var stored := if isText && v.Str? then Str(cat.toLower(v.s)) else v;
      var rest :- InItems(values[1..], isText, cat, base + 1);
      Ok(Piece([Param(base + 1, if v.Num? then AsNumeric else NoCast)] + rest.sql, [stored] + rest.added))
  }

  /** The translation of an expression when the parameter list already holds `base` values. */
  function Translate(e: Expr, tableName: string, cat: Catalog, base: nat): Translation<Sql>
    decreases e, 2
  {
    match e
    case Literal(v, _) =>
      if v == Null then Ok(Piece(SqlNull, [])) else Ok(Piece(Param(base + 1, CastFor(v)), [v]))
    case FieldRef(table, field) => Ok(Piece(Column(table, field), []))
    case VarRef(_) => Err(Unsupported)
    case Binary(op, left, right) =>
      var x :- TranslateTwo(e, left, right, tableName, cat, base);
      Ok(Piece(BinarySql(op, left, right, x.sql.0, x.sql.1, tableName, cat), x.added))
    case Unary(op, operand) =>
      var x :- Translate(operand, tableName, cat, base);
      Ok(Piece(SqlUnary(op, x.sql), x.added))
    case Call(name, args) =>
      var xs :- TranslateAll(args, tableName, cat, base);
      if cat.toUpper(name) in SUPPORTED_FUNCTIONS then Ok(Piece(SqlCall(cat.toUpper(name), xs.sql), xs.added))
      else Err(Unsupported)
    case Conditional(condition, onTrue, onFalse) =>
      var x :- TranslateThree(e, condition, onTrue, onFalse, tableName, cat, base);
      Ok(Piece(Case(x.sql.0, x.sql.1, x.sql.2), x.added))
    case Cast(expr, to) =>
      var x :- Translate(expr, tableName, cat, base);
      Ok(Piece(CastTo(x.sql, to), x.added))
    case IsNull(expr) =>
      var x :- Translate(expr, tableName, cat, base);
      Ok(Piece(IsNullTest(x.sql), x.added))
    case In(expr, values) =>
      var x :- Translate(expr, tableName, cat, base);
      var isText := IsTextField(expr, tableName, cat);
      var items :- InItems(values, isText, cat, base + |x.added|);
      Ok(Piece(InList(if isText then Lower(x.sql) else x.sql, items.sql), x.added + items.added))
    case Between(expr, low, high) =>
      var x :- TranslateThree(e, expr, low, high, tableName, cat, base);
      Ok(Piece(SqlBetween(x.sql.0, x.sql.1, x.sql.2), x.added))
    case Window(_, _, _, _) => Err(Unsupported)
    case SqlExpr(text) => Ok(Piece(RawSql(text), []))
    case Wildcard => Err(Unsupported)
  }

  /** Two parts of `e`, left to right. */
  function TranslateTwo(ghost e: Expr, a: Expr, b: Expr, tableName: string, cat: Catalog, base: nat)
    : Translation<(Sql, Sql)>
    requires a < e && b < e
    decreases e, 0
  {
    var x :- Translate(a, tableName, cat, base);
    var y :- Translate(b, tableName, cat, base + |x.added|);
    Ok(Piece((x.sql, y.sql), x.added + y.added))
  }

  function TranslateThree(ghost e: Expr, a: Expr, b: Expr, c: Expr, tableName: string, cat: Catalog, base: nat)
    : Translation<(Sql, Sql, Sql)>
    requires a < e && b < e && c < e
    decreases e, 1
  {
    var x :- TranslateTwo(e, a, b, tableName, cat, base);
    var y :- Translate(c, tableName, cat, base + |x.added|);
    Ok(Piece((x.sql.0, x.sql.1, y.sql), x.added + y.added))
  }

  function TranslateAll(es: seq<Expr>, tableName: string, cat: Catalog, base: nat): Translation<seq<Sql>>
    decreases es, 0
  {
    if es == [] then Ok(Piece([], []))
    else
      var x :- Translate(es[0], tableName, cat, base);
      var xs :- TranslateAll(es[1..], tableName, cat, base + |x.added|);
      Ok(Piece([x.sql] + xs.sql, x.added + xs.added))
  }

  // ----- the translator itself -----

  /** The parameter list every recursive call pushes onto. */
  class Parameters {
    var params: seq<Value>

    constructor (params: seq<Value>)
      ensures this.params == params
    {
      this.params := params;
    }

    method Add(v: Value) returns (index: nat)
      modifies this
      ensures params == old(params) + [v] && index == |params|
    {
      params := params + [v];
      index := |params|;
    }

    /** Only appends; when it succeeds it gives exactly the specified clause and values. */
    method PredicateToSQL(e: Expr, tableName: string, cat: Catalog) returns (r: Result<Sql, Unsupported>)
      modifies this
      decreases e, 2
      ensures old(params) <= params
      ensures Pushed(Translate(e, tableName, cat, |old(params)|), old(params), r, params)
    {
      match e
      case Literal(v, _) =>
        if v == Null {
          return Ok(SqlNull);
        }
        var index := Add(v);
        return Ok(Param(index, CastFor(v)));
      case FieldRef(table, field) => return Ok(Column(table, field));
      case Binary(op, left, right) =>
        var x :- TwoToSQL(e, left, right, tableName, cat);
        return Ok(BinarySql(op, left, right, x.0, x.1, tableName, cat));
      case Unary(op, operand) =>
        var x :- PredicateToSQL(operand, tableName, cat);
        return Ok(SqlUnary(op, x));
      case Call(name, args) =>
        var xs :- AllToSQL(args, tableName, cat);
        if cat.toUpper(name) !in SUPPORTED_FUNCTIONS {
          return Err(Unsupported);
        }
        return Ok(SqlCall(cat.toUpper(name), xs));
      case Conditional(condition, onTrue, onFalse) =>
        var x :- ThreeToSQL(e, condition, onTrue, onFalse, tableName, cat);
        return Ok(Case(x.0, x.1, x.2));
      case Cast(expr, to) =>
        var x :- PredicateToSQL(expr, tableName, cat);
        return Ok(CastTo(x, to));
      case IsNull(expr) =>
        var x :- PredicateToSQL(expr, tableName, cat);
        return Ok(IsNullTest(x));
      case In(_, _) =>
        r := InToSQL(e, tableName, cat);
      case Between(expr, low, high) =>
        var x :- ThreeToSQL(e, expr, low, high, tableName, cat);
        return Ok(SqlBetween(x.0, x.1, x.2));
      case SqlExpr(text) => return Ok(RawSql(text));
      case _ => return Err(Unsupported);
    }

    method InToSQL(e: Expr, tableName: string, cat: Catalog) returns (r: Result<Sql, Unsupported>)
      requires e.In?
      modifies this
      decreases e, 1
      ensures old(params) <= params
      ensures Pushed(Translate(e, tableName, cat, |old(params)|), old(params), r, params)
    {
      var x :- PredicateToSQL(e.expr, tableName, cat);
      var isText := IsTextField(e.expr, tableName, cat);
      var items :- ItemsToSQL(e.values, isText, cat);
      return Ok(InList(if isText then Lower(x) else x, items));
    }

    method TwoToSQL(ghost e: Expr, a: Expr, b: Expr, tableName: string, cat: Catalog)
      returns (r: Result<(Sql, Sql), Unsupported>)
      requires a < e && b < e
      modifies this
      decreases e, 0
      ensures old(params) <= params
      ensures Pushed(TranslateTwo(e, a, b, tableName, cat, |old(params)|), old(params), r, params)
    {
      TwoCases(e, a, b, tableName, cat, |params|);
      ghost var before := params;
      var x :- PredicateToSQL(a, tableName, cat);
      ghost var mid := params;
      var y :- PredicateToSQL(b, tableName, cat);
      AppendTwice(before, mid[|before|..], params[|mid|..]);
      return Ok((x, y));
    }

    method ThreeToSQL(ghost e: Expr, a: Expr, b: Expr, c: Expr, tableName: string, cat: Catalog)
      returns (r: Result<(Sql, Sql, Sql), Unsupported>)
      requires a < e && b < e && c < e
      modifies this
      decreases e, 1
      ensures old(params) <= params
      ensures Pushed(TranslateThree(e, a, b, c, tableName, cat, |old(params)|), old(params), r, params)
    {
      ghost var before := params;
      var x := TwoToSQL(e, a, b, tableName, cat);
      if x.Err? {
        ThreeCases(e, a, b, c, tableName, cat, |before|, |before|);
        return Err(x.error);
      }
      ghost var mid := params;
      var y := PredicateToSQL(c, tableName, cat);
      ThreePushed(e, a, b, c, tableName, cat, before, mid, params, x, y);
      return if y.Ok? then Ok((x.value.0, x.value.1, y.value)) else Err(y.error);
    }

    method AllToSQL(es: seq<Expr>, tableName: string, cat: Catalog) returns (r: Result<seq<Sql>, Unsupported>)
      modifies this
      decreases es, 0
      ensures old(params) <= params
      ensures Pushed(TranslateAll(es, tableName, cat, |old(params)|), old(params), r, params)
    {
      if es == [] {
        return Ok([]);
      }
      var x :- PredicateToSQL(es[0], tableName, cat);
      var xs :- AllToSQL(es[1..], tableName, cat);
      return Ok([x] + xs);
    }

    method ItemsToSQL(values: seq<Expr>, isText: bool, cat: Catalog) returns (r: Result<seq<Sql>, Unsupported>)
      modifies this
      ensures old(params) <= params
      ensures Pushed(InItems(values, isText, cat, |old(params)|), old(params), r, params)
    {
      if values == [] {
        return Ok([]);
      }
      if !values[0].Literal? {
        return Err(Unsupported);
      }
      var v := values[0].value;
      var index := Add(if isText && v.Str? then Str(cat.toLower(v.s)) else v);
      var rest :- ItemsToSQL(values[1..], isText, cat);
      return Ok([Param(index, if v.Num? then AsNumeric else NoCast)] + rest);
    }
  }

  /** The outcome of pushing: the specified clause, and the specified values appended. */
  ghost predicate Pushed<T>(t: Translation<T>, before: seq<Value>, r: Result<T, Unsupported>, after: seq<Value>) {
    match t
    case Ok(piece) => r == Ok(piece.sql) && after == before + piece.added
    case Err(u) => r == Err(u)
  }

  lemma TwoFromParts(
    e: Expr, a: Expr, b: Expr, tableName: string, cat: Catalog, base: nat, x: Piece<Sql>, y: Piece<Sql>)
    requires a < e && b < e
    requires Translate(a, tableName, cat, base) == Ok(x)
    requires Translate(b, tableName, cat, base + |x.added|) == Ok(y)
    ensures TranslateTwo(e, a, b, tableName, cat, base) == Ok(Piece((x.sql, y.sql), x.added + y.added))
  {
  }

  lemma ThreeFromTwo(
    e: Expr, a: Expr, b: Expr, c: Expr, tableName: string, cat: Catalog, base: nat, x: Piece<(Sql, Sql)>, y: Piece<Sql>)
    requires a < e && b < e && c < e
    requires TranslateTwo(e, a, b, tableName, cat, base) == Ok(x)
    requires Translate(c, tableName, cat, base + |x.added|) == Ok(y)
    ensures TranslateThree(e, a, b, c, tableName, cat, base) == Ok(Piece((x.sql.0, x.sql.1, y.sql), x.added + y.added))
  {
  }

  /** Two parts translate as their two translations say. */
  lemma TwoCases(e: Expr, a: Expr, b: Expr, tableName: string, cat: Catalog, base: nat)
    requires a < e && b < e
    ensures match Translate(a, tableName, cat, base)
            case Err(u) => TranslateTwo(e, a, b, tableName, cat, base) == Err(u)
            case Ok(x) =>
              match Translate(b, tableName, cat, base + |x.added|)
              case Err(u) => TranslateTwo(e, a, b, tableName, cat, base) == Err(u)
              case Ok(y) => TranslateTwo(e, a, b, tableName, cat, base) == Ok(Piece((x.sql, y.sql), x.added + y.added))
  {
  }

  lemma ThreeCases(e: Expr, a: Expr, b: Expr, c: Expr, tableName: string, cat: Catalog, base: nat, next: nat)
    requires a < e && b < e && c < e
    requires TranslateTwo(e, a, b, tableName, cat, base).Ok? ==>
               next == base + |TranslateTwo(e, a, b, tableName, cat, base).value.added|
    ensures InTurn(TranslateTwo(e, a, b, tableName, cat, base), Translate(c, tableName, cat, next),
                   TranslateThree(e, a, b, c, tableName, cat, base))
  {
  }

  /** How two parts and a third make three. */
  ghost predicate InTurn(two: Translation<(Sql, Sql)>, third: Translation<Sql>, three: Translation<(Sql, Sql, Sql)>) {
    three ==
    if two.Err? then Err(two.error)
    else if third.Err? then Err(third.error)
    else Ok(Piece((two.value.sql.0, two.value.sql.1, third.value.sql), two.value.added + third.value.added))
  }

  /** Two parts pushed, then a third. */
  lemma ThreePushed(
    e: Expr, a: Expr, b: Expr, c: Expr, tableName: string, cat: Catalog,
    before: seq<Value>, mid: seq<Value>, after: seq<Value>, x: Result<(Sql, Sql), Unsupported>, y: Result<Sql, Unsupported>)
    requires a < e && b < e && c < e && x.Ok?
    requires Pushed(TranslateTwo(e, a, b, tableName, cat, |before|), before, x, mid)
    requires Pushed(Translate(c, tableName, cat, |mid|), mid, y, after)
    ensures Pushed(TranslateThree(e, a, b, c, tableName, cat, |before|), before,
                   if y.Ok? then Ok((x.value.0, x.value.1, y.value)) else Err(y.error), after)
  {
    assert |mid| == |before| + |TranslateTwo(e, a, b, tableName, cat, |before|).value.added|;
    ThreeCases(e, a, b, c, tableName, cat, |before|, |mid|);
    PushedInTurn(TranslateTwo(e, a, b, tableName, cat, |before|), Translate(c, tableName, cat, |mid|),
      TranslateThree(e, a, b, c, tableName, cat, |before|), before, mid, after, x, y);
  }

  lemma PushedInTurn(
    two: Translation<(Sql, Sql)>, third: Translation<Sql>, three: Translation<(Sql, Sql, Sql)>,
    before: seq<Value>, mid: seq<Value>, after: seq<Value>, x: Result<(Sql, Sql), Unsupported>, y: Result<Sql, Unsupported>)
    requires x.Ok? && Pushed(two, before, x, mid) && Pushed(third, mid, y, after) && InTurn(two, third, three)
    ensures Pushed(three, before, if y.Ok? then Ok((x.value.0, x.value.1, y.value)) else Err(y.error), after)
  {
    if y.Ok? {
      AppendTwice(before, two.value.added, third.value.added);
    }
  }

  lemma AppendTwice(a: seq<Value>, b: seq<Value>, c: seq<Value>)
    ensures a + b + c == a + (b + c)
  {
  }

  // ----- placeholders -----

  /** The placeholder numbers of a clause, read left to right. */
  function Indices(s: Sql): seq<nat>
    decreases s, 1
  {
    match s
    case SqlNull => []
    case Param(index, _) => [index]
    case Column(_, _) => []
    case SqlBinary(_, l, r) => Indices(l) + Indices(r)
    case SqlUnary(_, arg) => Indices(arg)
    case IsNullTest(arg) => Indices(arg)
    case IsNotNullTest(arg) => Indices(arg)
    case NotInQuery(arg, _) => Indices(arg)
    case Lower(arg) => Indices(arg)
    case ILike(l, r) => Indices(l) + Indices(r)
    case SqlCall(_, args) => AllIndices(args)
    case Case(c, t, f) => Indices(c) + Indices(t) + Indices(f)
    case InList(arg, items) => Indices(arg) + AllIndices(items)
    case SqlBetween(arg, low, high) => Indices(arg) + Indices(low) + Indices(high)
    case CastTo(arg, _) => Indices(arg)
    case RawSql(_) => []
  }

  function AllIndices(ss: seq<Sql>): seq<nat>
    decreases ss, 0
  {
    if ss == [] then [] else Indices(ss[0]) + AllIndices(ss[1..])
  }

  /** base + 1, ..., base + n. */
  function Numbered(base: nat, n: nat): seq<nat> {
    seq(n, i => base + 1 + i)
  }

  lemma NumberedConcat(base: nat, m: nat, n: nat)
    ensures Numbered(base, m) + Numbered(base + m, n) == Numbered(base, m + n)
  {
  }

  /** Each value pushed is used exactly once, in the order pushed: the placeholders of a
      clause read left to right are the new positions of the list. */
  lemma {:induction false} PlaceholdersInOrder(e: Expr, tableName: string, cat: Catalog, base: nat)
    requires Translate(e, tableName, cat, base).Ok?
    ensures var piece := Translate(e, tableName, cat, base).value;
            Indices(piece.sql) == Numbered(base, |piece.added|)
    decreases e, 2
  {
    match e
    case Binary(_, _, _) => PlaceholdersOfBinary(e, tableName, cat, base);
    case Unary(_, operand) => PlaceholdersInOrder(operand, tableName, cat, base);
    case Call(_, args) => PlaceholdersInOrderAll(args, tableName, cat, base);
    case Conditional(condition, onTrue, onFalse) =>
      PlaceholdersOfThree(e, condition, onTrue, onFalse, tableName, cat, base);
    case Cast(expr, _) => PlaceholdersInOrder(expr, tableName, cat, base);
    case IsNull(expr) => PlaceholdersInOrder(expr, tableName, cat, base);
    case In(_, _) => PlaceholdersOfIn(e, tableName, cat, base);
    case Between(expr, low, high) => PlaceholdersOfThree(e, expr, low, high, tableName, cat, base);
    case _ =>
  }

  lemma {:induction false} PlaceholdersOfBinary(e: Expr, tableName: string, cat: Catalog, base: nat)
    requires e.Binary? && Translate(e, tableName, cat, base).Ok?
    ensures var piece := Translate(e, tableName, cat, base).value;
            Indices(piece.sql) == Numbered(base, |piece.added|)
    decreases e, 1
  {
    var x := TranslateTwo(e, e.left, e.right, tableName, cat, base).value;
    PlaceholdersOfTwo(e, e.left, e.right, tableName, cat, base);
    RightPartHasNone(e.right, tableName, cat, base + |Translate(e.left, tableName, cat, base).value.added|);
    BinaryIndices(e.op, e.left, e.right, x.sql.0, x.sql.1, tableName, cat);
  }

  /** Where the clause drops its right part, that part holds no placeholder. */
  lemma RightPartHasNone(right: Expr, tableName: string, cat: Catalog, base: nat)
    ensures (right.Literal? && right.value == Null) || right.SqlExpr? ==>
              Translate(right, tableName, cat, base).Ok? &&
              Indices(Translate(right, tableName, cat, base).value.sql) == []
  {
  }

  lemma ShapeIndices(op: BinaryOp, l: Sql, r: Sql, query: string)
    ensures Indices(IsNullTest(l)) == Indices(IsNotNullTest(l)) == Indices(NotInQuery(l, query)) == Indices(l)
    ensures Indices(ILike(l, r)) == Indices(SqlBinary(op, l, r)) == Indices(l) + Indices(r)
    ensures Indices(SqlBinary(op, Lower(l), Lower(r))) == Indices(l) + Indices(r)
  {
    assert Indices(Lower(l)) == Indices(l) && Indices(Lower(r)) == Indices(r);
  }

  lemma BinaryShape(op: BinaryOp, left: Expr, right: Expr, l: Sql, r: Sql, tableName: string, cat: Catalog)
    ensures var s := BinarySql(op, left, right, l, r, tableName, cat);
      || (((right.Literal? && right.value == Null) || right.SqlExpr?)
          && (s == IsNullTest(l) || s == IsNotNullTest(l) || (right.SqlExpr? && s == NotInQuery(l, right.sql))))
      || s == ILike(l, r) || s == SqlBinary(op, l, r) || s == SqlBinary(op, Lower(l), Lower(r))
  {
  }

  lemma BinaryIndices(op: BinaryOp, left: Expr, right: Expr, l: Sql, r: Sql, tableName: string, cat: Catalog)
    requires (right.Literal? && right.value == Null) || right.SqlExpr? ==> Indices(r) == []
    ensures Indices(BinarySql(op, left, right, l, r, tableName, cat)) == Indices(l) + Indices(r)
  {
    ShapeIndices(op, l, r, if right.SqlExpr? then right.sql else "");
    assert Indices(l) + [] == Indices(l);
    BinaryShape(op, left, right, l, r, tableName, cat);
  }

  lemma InFromParts(e: Expr, tableName: string, cat: Catalog, base: nat, x: Piece<Sql>, items: Piece<seq<Sql>>)
    requires e.In? && Translate(e.expr, tableName, cat, base) == Ok(x)
    requires InItems(e.values, IsTextField(e.expr, tableName, cat), cat, base + |x.added|) == Ok(items)
    ensures var isText := IsTextField(e.expr, tableName, cat);
            Translate(e, tableName, cat, base)
            == Ok(Piece(InList(if isText then Lower(x.sql) else x.sql, items.sql), x.added + items.added))
  {
  }

  lemma InListIndices(arg: Sql, items: seq<Sql>)
    ensures Indices(InList(arg, items)) == Indices(InList(Lower(arg), items)) == Indices(arg) + AllIndices(items)
  {
    assert Indices(Lower(arg)) == Indices(arg);
  }

  lemma {:induction false} PlaceholdersOfIn(e: Expr, tableName: string, cat: Catalog, base: nat)
    requires e.In? && Translate(e, tableName, cat, base).Ok?
    ensures var piece := Translate(e, tableName, cat, base).value;
            Indices(piece.sql) == Numbered(base, |piece.added|)
    decreases e, 0
  {
    var x := Translate(e.expr, tableName, cat, base).value;
    var isText := IsTextField(e.expr, tableName, cat);
    var items := InItems(e.values, isText, cat, base + |x.added|).value;
    PlaceholdersInOrder(e.expr, tableName, cat, base);
    ItemPlaceholders(e.values, isText, cat, base + |x.added|);
    InFromParts(e, tableName, cat, base, x, items);
    InListIndices(x.sql, items.sql);
    NumberedSteps(Indices(x.sql), AllIndices(items.sql), base, |x.added|, |items.added|);
  }

  lemma {:induction false} PlaceholdersOfTwo(
    e: Expr, a: Expr, b: Expr, tableName: string, cat: Catalog, base: nat)
    requires a < e && b < e && TranslateTwo(e, a, b, tableName, cat, base).Ok?
    ensures var piece := TranslateTwo(e, a, b, tableName, cat, base).value;
            Indices(piece.sql.0) + Indices(piece.sql.1) == Numbered(base, |piece.added|)
    decreases e, 0
  {
    var x := Translate(a, tableName, cat, base).value;
    var y := Translate(b, tableName, cat, base + |x.added|).value;
    PlaceholdersInOrder(a, tableName, cat, base);
    PlaceholdersInOrder(b, tableName, cat, base + |x.added|);
    TwoFromParts(e, a, b, tableName, cat, base, x, y);
    NumberedSteps(Indices(x.sql), Indices(y.sql), base, |x.added|, |y.added|);
  }

  lemma NumberedSteps(i: seq<nat>, j: seq<nat>, base: nat, m: nat, n: nat)
    requires i == Numbered(base, m) && j == Numbered(base + m, n)
    ensures i + j == Numbered(base, m + n)
  {
  }

  lemma {:induction false} PlaceholdersOfThree(
    e: Expr, a: Expr, b: Expr, c: Expr, tableName: string, cat: Catalog, base: nat)
    requires a < e && b < e && c < e && TranslateThree(e, a, b, c, tableName, cat, base).Ok?
    ensures var piece := TranslateThree(e, a, b, c, tableName, cat, base).value;
            Indices(piece.sql.0) + Indices(piece.sql.1) + Indices(piece.sql.2) == Numbered(base, |piece.added|)
    decreases e, 1
  {
    var x := TranslateTwo(e, a, b, tableName, cat, base).value;
    var y := Translate(c, tableName, cat, base + |x.added|).value;
    PlaceholdersOfTwo(e, a, b, tableName, cat, base);
    PlaceholdersInOrder(c, tableName, cat, base + |x.added|);
    ThreeFromTwo(e, a, b, c, tableName, cat, base, x, y);
    NumberedSteps(Indices(x.sql.0) + Indices(x.sql.1), Indices(y.sql), base, |x.added|, |y.added|);
  }

  lemma {:induction false} PlaceholdersInOrderAll(es: seq<Expr>, tableName: string, cat: Catalog, base: nat)
    requires TranslateAll(es, tableName, cat, base).Ok?
    ensures var piece := TranslateAll(es, tableName, cat, base).value;
            AllIndices(piece.sql) == Numbered(base, |piece.added|)
    decreases es, 0
  {
    if es != [] {
      var x := Translate(es[0], tableName, cat, base).value;
      PlaceholdersInOrder(es[0], tableName, cat, base);
      PlaceholdersInOrderAll(es[1..], tableName, cat, base + |x.added|);
      NumberedConcat(base, |x.added|, |TranslateAll(es[1..], tableName, cat, base + |x.added|).value.added|);
    }
  }

  lemma {:induction false} ItemPlaceholders(values: seq<Expr>, isText: bool, cat: Catalog, base: nat)
    requires InItems(values, isText, cat, base).Ok?
    ensures var piece := InItems(values, isText, cat, base).value;
            AllIndices(piece.sql) == Numbered(base, |piece.added|)
  {
    if values != [] {
      ItemPlaceholders(values[1..], isText, cat, base + 1);
      NumberedConcat(base, 1, |InItems(values[1..], isText, cat, base + 1).value.added|);
    }
  }
}
