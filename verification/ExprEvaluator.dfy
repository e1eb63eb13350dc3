/** Expressions and their in-memory evaluation. */
module ExprEvaluator {
  import opened Common
  import opened DataValues

  datatype BinaryOp =
    | Add | Sub | Mul | Div | Mod
    | Eq | Ne | Lt | Gt | Le | Ge
    | And | Or
    | Like | Concat

  datatype UnaryOp = Not | Neg

  datatype EngineType =
    | TString | TNumber | TBoolean | TNull | TDatetime | TJson
    | TArray(item: EngineType) | TRecord(fields: map<string, EngineType>) | TRowset | TAny

  /** An absent table of a field reference is "". */
  datatype Expr =
    | Literal(value: Value, ty: EngineType)
    | FieldRef(table: string, field: string)
    | VarRef(name: string)
    | Binary(op: BinaryOp, left: Expr, right: Expr)
    | Unary(uop: UnaryOp, operand: Expr)
    | Call(name: string, args: seq<Expr>)
    | Conditional(condition: Expr, onTrue: Expr, onFalse: Expr)
    | Cast(expr: Expr, to: EngineType)
    | IsNull(expr: Expr)
    | In(expr: Expr, values: seq<Expr>)
    | Between(expr: Expr, low: Expr, high: Expr)
    | Window(fn: string, over: Expr, partition: seq<Expr>, orderBy: seq<Expr>)
    | SqlExpr(sql: string)
    | Wildcard

  datatype EvalError =
    | FieldNotFound(field: string) | Unresolved(name: string)
    | TypeMismatch | CastFailed | NotImplemented
    | FunctionNotFound(name: string) | CallFailed(message: string)

  type Answer<+T> = Result<T, EvalError>

  /** The innermost binding of a name counts. */
  datatype Scope = NoScope | Scope(bindings: map<string, Value>, parent: Scope)

  datatype FunctionDef = FunctionDef(infer: seq<EngineType> -> EngineType, execute: seq<Value> -> Answer<Value>)

  /** The function registry, and the host's conversions and comparisons beyond numbers. */
  datatype Env = Env(
    functions: map<string, FunctionDef>,
    compare: (BinaryOp, Value, Value) -> bool,
    divideByZero: real -> real,
    remainder: (real, real) -> real,
    matches: (string, string) -> bool,
    toText: Value -> string,
    toNumber: Value -> Option<real>,
    toDate: Value -> Option<string>)

  // ----- scopes -----

  function Resolve(name: string, scope: Scope): Option<Value> {
    match scope
    case NoScope => None
    case Scope(bindings, parent) => if name in bindings then Some(bindings[name]) else Resolve(name, parent)
  }

  /** The walk up the scope chain. */
  method ScopeResolve(name: string, scope: Scope) returns (r: Answer<Value>)
    ensures r == if Resolve(name, scope).Some? then Ok(Resolve(name, scope).value) else Err(Unresolved(name))
  {
    var current := scope;
    while current != NoScope
      invariant Resolve(name, current) == Resolve(name, scope)
      decreases current
    {
      if name in current.bindings {
        return Ok(current.bindings[name]);
      }
      current := current.parent;
    }
    return Err(Unresolved(name));
  }

  // ----- operators -----

  function Truthy(v: Value): bool {
    match v
    case Null => false
    case Bool(b) => b
    case Num(n) => n != 0.0
    case Str(s) => s != ""
    case _ => true
  }

  function Arithmetic(op: BinaryOp, l: Value, r: Value, env: Env): Answer<Value> {
    if !l.Num? || !r.Num? then Err(TypeMismatch)
    else
      match op
      case Add => Ok(Num(l.n + r.n))
      case Sub => Ok(Num(l.n - r.n))
      case Mul => Ok(Num(l.n * r.n))
      case Div => Ok(Num(if r.n == 0.0 then env.divideByZero(l.n) else l.n / r.n))
      case _ => Ok(Num(env.remainder(l.n, r.n)))
  }

  function CompareNumbers(op: BinaryOp, l: real, r: real): bool {
    match op
    case Lt => l < r
    case Gt => l > r
    case Le => l <= r
    case _ => l >= r
  }

  function Compare(op: BinaryOp, l: Value, r: Value, env: Env): bool {
    if op == Eq then l == r
    else if op == Ne then l != r
    else if l.Num? && r.Num? then CompareNumbers(op, l.n, r.n)
    else env.compare(op, l, r)
  }

  function ApplyBinary(op: BinaryOp, l: Value, r: Value, env: Env): Answer<Value> {
    match op
    case Add | Sub | Mul | Div | Mod => Arithmetic(op, l, r, env)
    case Eq | Ne | Lt | Gt | Le | Ge => Ok(Bool(Compare(op, l, r, env)))
    case And => if l.Bool? && r.Bool? then Ok(Bool(l.b && r.b)) else Err(TypeMismatch)
    case Or => if l.Bool? && r.Bool? then Ok(Bool(l.b || r.b)) else Err(TypeMismatch)
    case Like => if l.Str? && r.Str? then Ok(Bool(env.matches(l.s, r.s))) else Err(TypeMismatch)
    case Concat => Ok(Str(env.toText(l) + env.toText(r)))
  }

  function ApplyUnary(op: UnaryOp, v: Value): Answer<Value> {
    match op
    case Not => if v.Bool? then Ok(Bool(!v.b)) else Err(TypeMismatch)
    case Neg => if v.Num? then Ok(Num(-v.n)) else Err(TypeMismatch)
  }

  function CastValue(v: Value, to: EngineType, env: Env): Answer<Value> {
    if v == Null then Ok(Null)
    else
      match to
      case TString => Ok(Str(env.toText(v)))
      case TNumber => if env.toNumber(v).Some? then Ok(Num(env.toNumber(v).value)) else Err(CastFailed)
      case TBoolean => Ok(Bool(Truthy(v)))
      case TJson => Ok(v)
      case TDatetime => if env.toDate(v).Some? then Ok(Str(env.toDate(v).value)) else Err(CastFailed)
      case TArray(_) => if v.Arr? then Ok(v) else Err(CastFailed)
      case TRecord(_) => if v.Obj? then Ok(v) else Err(CastFailed)
      case TAny => Ok(v)
      case _ => Err(CastFailed)
  }

  // ----- field references -----

  function FromTable(table: string, field: string, scope: Scope): Option<Value> {
    if table == "" then None
    else
      var t := Resolve(table, scope);
      if t.Some? && t.value.Obj? && field in t.value.fields then Some(t.value.fields[field]) else None
  }

  function FromRow(table: string, field: string, row: Row): Option<Value> {
    if table != "" && table + "." + field in row then Some(row[table + "." + field])
    else if field in row then Some(row[field])
    else if "left." + field in row then Some(row["left." + field])
    else if "right." + field in row then Some(row["right." + field])
    else None
  }

  function EvaluateField(table: string, field: string, scope: Scope, row: Option<Row>): Answer<Value> {
    if FromTable(table, field, scope).Some? then Ok(FromTable(table, field, scope).value)
    else if row.Some? && FromRow(table, field, row.value).Some? then Ok(FromRow(table, field, row.value).value)
    else if Resolve(field, scope).Some? then Ok(Resolve(field, scope).value)
    else Err(FieldNotFound(field))
  }

  // ----- evaluation -----

  function Evaluate(e: Expr, scope: Scope, row: Option<Row>, env: Env): Answer<Value>
    decreases e, 1
  {
    match e
    case Literal(v, _) => Ok(v)
    case FieldRef(table, field) => EvaluateField(table, field, scope, row)
    case VarRef(name) =>
      if Resolve(name, scope).Some? then Ok(Resolve(name, scope).value) else Err(Unresolved(name))
    case Binary(op, left, right) =>
      var l :- Evaluate(left, scope, row, env);
      var r :- Evaluate(right, scope, row, env);
      ApplyBinary(op, l, r, env)
    case Unary(op, operand) =>
      var v :- Evaluate(operand, scope, row, env);
      ApplyUnary(op, v)
    case Call(name, args) =>
      if name !in env.functions then Err(FunctionNotFound(name))
      else
        var vs :- EvaluateAll(args, scope, row, env);
        env.functions[name].execute(vs)
    case Conditional(condition, onTrue, onFalse) =>
      var c :- Evaluate(condition, scope, row, env);
      if Truthy(c) then Evaluate(onTrue, scope, row, env) else Evaluate(onFalse, scope, row, env)
    case Cast(expr, to) =>
      var v :- Evaluate(expr, scope, row, env);
      CastValue(v, to, env)
    case IsNull(expr) =>
      var v :- Evaluate(expr, scope, row, env);
      Ok(Bool(v == Null))
    case In(expr, values) =>
      var v :- Evaluate(expr, scope, row, env);
      var vs :- EvaluateAll(values, scope, row, env);
      Ok(Bool(v in vs))
    case Between(expr, low, high) =>
      var v :- Evaluate(expr, scope, row, env);
      var lo :- Evaluate(low, scope, row, env);
      var hi :- Evaluate(high, scope, row, env);
      Ok(Bool(Compare(Ge, v, lo, env) && Compare(Le, v, hi, env)))
    case Window(_, _, _, _) => Err(NotImplemented)
    case SqlExpr(_) => Ok(Bool(true))
    case Wildcard => Err(NotImplemented)
  }

  function EvaluateAll(es: seq<Expr>, scope: Scope, row: Option<Row>, env: Env): (r: Answer<seq<Value>>)
    ensures r.Ok? ==> |r.value| == |es|
    decreases es, 0
  {
    if es == [] then Ok([])
    else
      var v :- Evaluate(es[0], scope, row, env);
      var vs :- EvaluateAll(es[1..], scope, row, env);
      Ok([v] + vs)
  }

  // ----- type inference -----

  datatype TypeScope = NoTypes | Types(bindings: map<string, EngineType>, parent: TypeScope)

  function ResolveType(name: string, scope: TypeScope): Option<EngineType> {
    match scope
    case NoTypes => None
    case Types(bindings, parent) => if name in bindings then Some(bindings[name]) else ResolveType(name, parent)
  }

  function InferType(e: Expr, types: TypeScope, env: Env): Answer<EngineType>
    decreases e, 1
  {
    match e
    case Literal(_, ty) => Ok(ty)
    case FieldRef(_, _) => Ok(TAny)
    case VarRef(name) =>
      if ResolveType(name, types).Some? then Ok(ResolveType(name, types).value) else Err(Unresolved(name))
    case Binary(op, left, right) =>
      var l :- InferType(left, types, env);
      var r :- InferType(right, types, env);
      Ok(match op
         case Add | Sub | Mul | Div | Mod => TNumber
         case Concat => TString
         case _ => TBoolean)
    case Unary(op, _) => Ok(if op == Not then TBoolean else TNumber)
    case Call(name, args) =>
      if name !in env.functions then Err(FunctionNotFound(name))
      else
        var ts :- InferAll(args, types, env);
        Ok(env.functions[name].infer(ts))
    case Conditional(_, onTrue, _) => InferType(onTrue, types, env)
    case Cast(_, to) => Ok(to)
    case IsNull(_) => Ok(TBoolean)
    case In(_, _) => Ok(TBoolean)
    case Between(_, _, _) => Ok(TBoolean)
    case Window(_, _, _, _) => Err(NotImplemented)
    case SqlExpr(_) => Ok(TBoolean)
    case Wildcard => Err(NotImplemented)
  }

  function InferAll(es: seq<Expr>, types: TypeScope, env: Env): (r: Answer<seq<EngineType>>)
    ensures r.Ok? ==> |r.value| == |es|
    decreases es, 0
  {
    if es == [] then Ok([])
    else
      var t :- InferType(es[0], types, env);
      var ts :- InferAll(es[1..], types, env);
      Ok([t] + ts)
  }
}
